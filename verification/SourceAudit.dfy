/**
 The incremental source audit: dependencies and diagnostics of unchanged files are taken over from an
 earlier audit, and only what a change can affect is compiled again.
 */
module SourceAudit {
  import opened Common
  import opened DependencyGraph

  type Text = string
  type Files = map<Path, Text>

  datatype SourceFile = SourceFile(path: Path, source: Text)

  datatype Diagnostic = Diagnostic(category: int, code: int, message: string, path: Path)

  /**
   The compiler as the audit uses it.
   `candidates` lists, for each import of a file, the paths tried in order; it reads the file's own text only.
   `onDisk` says which candidates exist outside the audited sources.
   `canChangeGlobals` recognises scripts, global augmentations and ambient modules.
   `compile` gives the diagnostics of one file of a program.
   */
  datatype Compiler = Compiler(
    candidates: (Path, Text) -> seq<seq<Path>>,
    onDisk: Path -> bool,
    canChangeGlobals: (Path, Text) -> bool,
    compile: (Files, Path) -> seq<Diagnostic>)

  // ----- Resolution

  function FirstExisting(c: Compiler, roots: set<Path>, candidates: seq<Path>): Option<Path> {
    if candidates == [] then None
    else if candidates[0] in roots || c.onDisk(candidates[0]) then Some(candidates[0])
    else FirstExisting(c, roots, candidates[1..])
  }

  function Resolve(c: Compiler, roots: set<Path>, imports: seq<seq<Path>>): (r: seq<Option<Path>>)
    ensures |r| == |imports| && forall i :: 0 <= i < |r| ==> r[i] == FirstExisting(c, roots, imports[i])
  {
    seq(|imports|, i requires 0 <= i < |imports| => FirstExisting(c, roots, imports[i]))
  }

  predicate IsDependency(roots: set<Path>, path: Path, resolved: Option<Path>) {
    resolved.Some? && resolved.value != path && resolved.value in roots
  }

  /** The resolved paths that are other audited sources. */
  function Kept(roots: set<Path>, path: Path, resolved: seq<Option<Path>>): seq<Path> {
    if resolved == [] then []
    else (if IsDependency(roots, path, resolved[0]) then [resolved[0].value] else []) + Kept(roots, path, resolved[1..])
  }

  function Resolutions(c: Compiler, files: Files, p: Path): seq<Option<Path>>
    requires p in files
  {
    Resolve(c, files.Keys, c.candidates(p, files[p]))
  }

  function Dependencies(c: Compiler, files: Files, p: Path): seq<Path>
    requires p in files
  {
    Kept(files.Keys, p, Resolutions(c, files, p))
  }

  function FullDependencies(c: Compiler, files: Files): Graph {
    map p | p in files :: Dependencies(c, files, p)
  }

  // ----- What diagnostics may depend on

  datatype NodeView = NodeView(text: Text, resolutions: seq<Option<Path>>)

  function Node(c: Compiler, files: Files, p: Path): NodeView
    requires p in files
  {
    NodeView(files[p], Resolutions(c, files, p))
  }

  /** A file's dependency closure: every text in it and what its imports resolve to. */
  ghost function View(c: Compiler, files: Files, p: Path): map<Path, NodeView> {
    map q | q in files && Reaches(FullDependencies(c, files), p, q) :: Node(c, files, q)
  }

  ghost predicate ReachedByGlobals(c: Compiler, files: Files, q: Path) {
    exists g :: g in files && c.canChangeGlobals(g, files[g]) && Reaches(FullDependencies(c, files), g, q)
  }

  /** The closures of the files that can change the global scope. */
  ghost function GlobalView(c: Compiler, files: Files): map<Path, NodeView> {
    map q | q in files && ReachedByGlobals(c, files, q) :: Node(c, files, q)
  }

  /** Locality: a file's diagnostics are determined by its own closure and by the global scope. */
  ghost predicate Local(c: Compiler) {
    forall f: Files, g: Files, p: Path ::
      View(c, f, p) == View(c, g, p) && GlobalView(c, f) == GlobalView(c, g) ==> c.compile(f, p) == c.compile(g, p)
  }

  // ----- Programs

  datatype Program = Program(files: Files, dependencies: Graph, diagnostics: map<Path, seq<Diagnostic>>)

  /** What stands for the previous program before the first audit. */
  const NO_PROGRAM := Program(map[], map[], map[])

  /** Everything computed from nothing. */
  function FullProgram(c: Compiler, files: Files): Program {
    Program(files, FullDependencies(c, files), map p | p in files :: c.compile(files, p))
  }

  // ----- The incremental computation

  function Changed(files: Files, prior: Files, matchesDisk: SourceFile -> bool): set<Path> {
    set p | p in files && (if p in prior then prior[p] != files[p] else !matchesDisk(SourceFile(p, files[p])))
  }

  ghost function Affected(c: Compiler, files: Files, prior: Files, matchesDisk: SourceFile -> bool): set<Path> {
    Dependents(Union(FullDependencies(c, files), FullDependencies(c, prior)), files.Keys,
               Changed(files, prior, matchesDisk) + (prior.Keys - files.Keys))
  }

  predicate IsGlobalIn(c: Compiler, files: Files, p: Path) {
    p in files && c.canChangeGlobals(p, files[p])
  }

  predicate GlobalScopeChanged(c: Compiler, files: Files, prior: Files, affected: set<Path>) {
    || (exists p :: p in affected && (IsGlobalIn(c, files, p) || IsGlobalIn(c, prior, p)))
    || (exists p :: p in prior.Keys - files.Keys && IsGlobalIn(c, prior, p))
  }

  function Recompiled(c: Compiler, files: Files, prior: Files, affected: set<Path>): set<Path> {
    if GlobalScopeChanged(c, files, prior, affected) then files.Keys else affected
  }

  predicate Unchanged(files: Files, prior: Files, p: Path) {
    p in files && p in prior && prior[p] == files[p]
  }

  /** The diagnostics of one file after an incremental audit. */
  function EntryFor(c: Compiler, files: Files, previous: Program, recompiled: set<Path>, p: Path): seq<Diagnostic> {
    if p !in recompiled && Unchanged(files, previous.files, p) then
      if p in previous.diagnostics then previous.diagnostics[p] else []
    else if p !in recompiled then []
    else c.compile(files, p)
  }

  /** The files that are neither recompiled nor taken over: added files that match the disk. */
  function Skipped(files: Files, prior: Files, recompiled: set<Path>): set<Path> {
    set p | p in files && p !in recompiled && !Unchanged(files, prior, p)
  }

  ghost function RecompiledFor(c: Compiler, files: Files, prior: Files, matchesDisk: SourceFile -> bool): set<Path> {
    Recompiled(c, files, prior, Affected(c, files, prior, matchesDisk))
  }

  ghost function IncrementalProgram(c: Compiler, files: Files, previous: Program,
                                    matchesDisk: SourceFile -> bool): Program {
    var recompiled := RecompiledFor(c, files, previous.files, matchesDisk);
    Program(files, FullDependencies(c, files), map p | p in files :: EntryFor(c, files, previous, recompiled, p))
  }

  // ----- An unaffected file sees the same closure in both programs

  ghost predicate AgreeOn(a: Graph, b: Graph, s: set<Path>) {
    forall p :: p in s ==> p in a && p in b && a[p] == b[p] && forall q :: q in a[p] ==> q in s
  }

  lemma {:induction false} ChainTransfers(a: Graph, b: Graph, s: set<Path>, chain: seq<Path>)
    requires AgreeOn(a, b, s)
    requires |chain| > 0 && IsChain(a, chain) && chain[0] in s
    ensures IsChain(b, chain) && chain[|chain| - 1] in s
  {
    if |chain| > 1 {
      var rest := chain[1..];
      assert Edge(a, chain[0], chain[1]);
      forall i | 0 <= i < |rest| - 1 ensures Edge(a, rest[i], rest[i + 1]) {
        assert Edge(a, chain[i + 1], chain[i + 1 + 1]);
      }
      ChainTransfers(a, b, s, rest);
      forall i | 0 <= i < |chain| - 1 ensures Edge(b, chain[i], chain[i + 1]) {
        if i > 0 {
          assert Edge(b, rest[i - 1], rest[i - 1 + 1]);
        }
      }
    }
  }

  lemma ReachTransfers(a: Graph, b: Graph, s: set<Path>, from: Path, to: Path)
    requires AgreeOn(a, b, s) && from in s && Reaches(a, from, to)
    ensures Reaches(b, from, to) && to in s
  {
    var chain :| ChainFromTo(a, chain, from, to);
    ChainTransfers(a, b, s, chain);
    assert ChainFromTo(b, chain, from, to);
  }

  /** Neither program prefers a candidate that the other does not have. */
  lemma {:induction false} SameFirst(c: Compiler, roots: set<Path>, oldRoots: set<Path>, candidates: seq<Path>)
    requires var x := FirstExisting(c, roots, candidates); x.Some? && x.value in roots ==> x.value in oldRoots
    requires var y := FirstExisting(c, oldRoots, candidates); y.Some? && y.value in oldRoots ==> y.value in roots
    ensures FirstExisting(c, roots, candidates) == FirstExisting(c, oldRoots, candidates)
  {
    if candidates != [] && candidates[0] !in roots && candidates[0] !in oldRoots && !c.onDisk(candidates[0]) {
      SameFirst(c, roots, oldRoots, candidates[1..]);
    }
  }

  lemma {:induction false} KeptMembers(roots: set<Path>, path: Path, resolved: seq<Option<Path>>, i: nat)
    requires i < |resolved| && IsDependency(roots, path, resolved[i])
    ensures resolved[i].value in Kept(roots, path, resolved)
  {
    if i > 0 {
      KeptMembers(roots, path, resolved[1..], i - 1);
    }
  }

  lemma {:induction false} KeptOnlyRoots(roots: set<Path>, path: Path, resolved: seq<Option<Path>>)
    ensures forall q :: q in Kept(roots, path, resolved) ==> q in roots
  {
    if resolved != [] {
      KeptOnlyRoots(roots, path, resolved[1..]);
    }
  }

  lemma {:induction false} SameKept(roots: set<Path>, oldRoots: set<Path>, path: Path, resolved: seq<Option<Path>>)
    requires forall i :: 0 <= i < |resolved| ==>
               (IsDependency(roots, path, resolved[i]) <==> IsDependency(oldRoots, path, resolved[i]))
    ensures Kept(roots, path, resolved) == Kept(oldRoots, path, resolved)
  {
    if resolved != [] {
      assert IsDependency(roots, path, resolved[0]) <==> IsDependency(oldRoots, path, resolved[0]);
      SameKept(roots, oldRoots, path, resolved[1..]);
    }
  }

  /** Facts about one incremental step in which nothing is skipped and the global scope stays put. */
  ghost predicate QuietStep(c: Compiler, files: Files, prior: Files, matchesDisk: SourceFile -> bool) {
    var affected := Affected(c, files, prior, matchesDisk);
    !GlobalScopeChanged(c, files, prior, affected) && Skipped(files, prior, affected) == {}
  }

  ghost function Unaffected(c: Compiler, files: Files, prior: Files, matchesDisk: SourceFile -> bool): set<Path> {
    files.Keys - Affected(c, files, prior, matchesDisk)
  }

  lemma UnaffectedIsUnchanged(c: Compiler, files: Files, prior: Files, matchesDisk: SourceFile -> bool, p: Path)
    requires QuietStep(c, files, prior, matchesDisk)
    requires p in Unaffected(c, files, prior, matchesDisk)
    ensures Unchanged(files, prior, p)
  {
    assert p !in Skipped(files, prior, Affected(c, files, prior, matchesDisk));
  }

  /** Whatever an unaffected file depends on, before or now, is itself a current, unaffected file. */
  lemma DependencyOfUnaffected(c: Compiler, files: Files, prior: Files, matchesDisk: SourceFile -> bool, p: Path,
                               q: Path)
    requires p in Unaffected(c, files, prior, matchesDisk)
    requires Edge(FullDependencies(c, files), p, q) || Edge(FullDependencies(c, prior), p, q)
    requires q in files || q in prior
    ensures q in Unaffected(c, files, prior, matchesDisk)
  {
    var g := Union(FullDependencies(c, files), FullDependencies(c, prior));
    var seeds := Changed(files, prior, matchesDisk) + (prior.Keys - files.Keys);
    UnionEdges(FullDependencies(c, files), FullDependencies(c, prior), p, q);
    if ReachesSome(g, q, seeds) {
      DependentReaches(g, p, q, seeds);
      assert false;
    }
    if q !in files {
      SeedReaches(g, q, seeds);
      assert false;
    }
  }

  lemma ResolvedInBoth(c: Compiler, files: Files, prior: Files, matchesDisk: SourceFile -> bool, p: Path, i: nat)
    requires QuietStep(c, files, prior, matchesDisk)
    requires p in Unaffected(c, files, prior, matchesDisk)
    requires Unchanged(files, prior, p) && i < |c.candidates(p, files[p])|
    ensures var x := Resolutions(c, files, p)[i]; x.Some? && x.value in files ==> x.value in prior
    ensures var y := Resolutions(c, prior, p)[i]; y.Some? && y.value in prior ==> y.value in files
  {
    var x, y := Resolutions(c, files, p)[i], Resolutions(c, prior, p)[i];
    if x.Some? && x.value in files && x.value != p {
      KeptMembers(files.Keys, p, Resolutions(c, files, p), i);
      DependencyOfUnaffected(c, files, prior, matchesDisk, p, x.value);
      UnaffectedIsUnchanged(c, files, prior, matchesDisk, x.value);
    }
    if y.Some? && y.value in prior && y.value != p {
      KeptMembers(prior.Keys, p, Resolutions(c, prior, p), i);
      DependencyOfUnaffected(c, files, prior, matchesDisk, p, y.value);
    }
  }

  lemma UnaffectedNode(c: Compiler, files: Files, prior: Files, matchesDisk: SourceFile -> bool, p: Path)
    requires QuietStep(c, files, prior, matchesDisk)
    requires p in Unaffected(c, files, prior, matchesDisk)
    ensures Unchanged(files, prior, p)
    ensures Node(c, files, p) == Node(c, prior, p)
    ensures Dependencies(c, files, p) == Dependencies(c, prior, p)
  {
    UnaffectedIsUnchanged(c, files, prior, matchesDisk, p);
    var imports := c.candidates(p, files[p]);
    var here, there := Resolutions(c, files, p), Resolutions(c, prior, p);
    forall i | 0 <= i < |imports|
      ensures here[i] == there[i]
      ensures IsDependency(files.Keys, p, here[i]) <==> IsDependency(prior.Keys, p, here[i])
    {
      ResolvedInBoth(c, files, prior, matchesDisk, p, i);
      SameFirst(c, files.Keys, prior.Keys, imports[i]);
    }
    assert here == there;
    SameKept(files.Keys, prior.Keys, p, here);
  }

  lemma GraphsAgree(c: Compiler, files: Files, prior: Files, matchesDisk: SourceFile -> bool)
    requires QuietStep(c, files, prior, matchesDisk)
    ensures AgreeOn(FullDependencies(c, files), FullDependencies(c, prior), Unaffected(c, files, prior, matchesDisk))
    ensures AgreeOn(FullDependencies(c, prior), FullDependencies(c, files), Unaffected(c, files, prior, matchesDisk))
  {
    forall p | p in Unaffected(c, files, prior, matchesDisk)
      ensures p in prior && Dependencies(c, files, p) == Dependencies(c, prior, p)
      ensures forall q :: q in Dependencies(c, files, p) ==> q in Unaffected(c, files, prior, matchesDisk)
    {
      UnaffectedNode(c, files, prior, matchesDisk, p);
      KeptOnlyRoots(files.Keys, p, Resolutions(c, files, p));
      forall q | q in Dependencies(c, files, p) ensures q in Unaffected(c, files, prior, matchesDisk) {
        DependencyOfUnaffected(c, files, prior, matchesDisk, p, q);
      }
    }
  }

  lemma ReachSame(c: Compiler, files: Files, prior: Files, matchesDisk: SourceFile -> bool, p: Path, q: Path)
    requires QuietStep(c, files, prior, matchesDisk)
    requires p in Unaffected(c, files, prior, matchesDisk)
    ensures Reaches(FullDependencies(c, files), p, q) <==> Reaches(FullDependencies(c, prior), p, q)
    ensures Reaches(FullDependencies(c, files), p, q) ==>
              q in files && q in prior && Node(c, files, q) == Node(c, prior, q)
  {
    GraphsAgree(c, files, prior, matchesDisk);
    var a, b := FullDependencies(c, files), FullDependencies(c, prior);
    var s := Unaffected(c, files, prior, matchesDisk);
    if Reaches(a, p, q) {
      ReachTransfers(a, b, s, p, q);
      UnaffectedNode(c, files, prior, matchesDisk, q);
    }
    if Reaches(b, p, q) {
      ReachTransfers(b, a, s, p, q);
    }
  }

  lemma SameView(c: Compiler, files: Files, prior: Files, matchesDisk: SourceFile -> bool, p: Path)
    requires QuietStep(c, files, prior, matchesDisk)
    requires p in Unaffected(c, files, prior, matchesDisk)
    ensures View(c, files, p) == View(c, prior, p)
  {
    forall q ensures q in View(c, files, p) <==> q in View(c, prior, p)
             ensures q in View(c, files, p) ==> View(c, files, p)[q] == View(c, prior, p)[q]
    {
      ReachSame(c, files, prior, matchesDisk, p, q);
      if q in View(c, prior, p) {
        assert Reaches(FullDependencies(c, prior), p, q);
      }
    }
  }

  /** In a quiet step the files that can change the global scope are the same, and all unaffected. */
  lemma SameGlobals(c: Compiler, files: Files, prior: Files, matchesDisk: SourceFile -> bool, p: Path)
    requires QuietStep(c, files, prior, matchesDisk)
    ensures IsGlobalIn(c, files, p) <==> IsGlobalIn(c, prior, p)
    ensures IsGlobalIn(c, files, p) ==> p in Unaffected(c, files, prior, matchesDisk)
  {
    if IsGlobalIn(c, files, p) || IsGlobalIn(c, prior, p) {
      assert p !in prior.Keys - files.Keys;
      assert p !in Affected(c, files, prior, matchesDisk);
      UnaffectedIsUnchanged(c, files, prior, matchesDisk, p);
    }
  }

  lemma SameGlobalReach(c: Compiler, files: Files, prior: Files, matchesDisk: SourceFile -> bool, q: Path)
    requires QuietStep(c, files, prior, matchesDisk)
    ensures ReachedByGlobals(c, files, q) <==> ReachedByGlobals(c, prior, q)
    ensures ReachedByGlobals(c, files, q) ==> q in files && q in prior && Node(c, files, q) == Node(c, prior, q)
  {
    forall g ensures IsGlobalIn(c, files, g) <==> IsGlobalIn(c, prior, g)
             ensures IsGlobalIn(c, files, g) ==>
                       && (Reaches(FullDependencies(c, files), g, q) <==> Reaches(FullDependencies(c, prior), g, q))
                       && (Reaches(FullDependencies(c, files), g, q) ==>
                             q in files && q in prior && Node(c, files, q) == Node(c, prior, q))
    {
      SameGlobals(c, files, prior, matchesDisk, g);
      if IsGlobalIn(c, files, g) {
        ReachSame(c, files, prior, matchesDisk, g, q);
      }
    }
    if ReachedByGlobals(c, files, q) {
      var g :| g in files && c.canChangeGlobals(g, files[g]) && Reaches(FullDependencies(c, files), g, q);
      assert IsGlobalIn(c, files, g) && IsGlobalIn(c, prior, g);
    }
    if ReachedByGlobals(c, prior, q) {
      var g :| g in prior && c.canChangeGlobals(g, prior[g]) && Reaches(FullDependencies(c, prior), g, q);
      assert IsGlobalIn(c, prior, g) && IsGlobalIn(c, files, g);
    }
  }

  lemma SameGlobalView(c: Compiler, files: Files, prior: Files, matchesDisk: SourceFile -> bool)
    requires QuietStep(c, files, prior, matchesDisk)
    ensures GlobalView(c, files) == GlobalView(c, prior)
  {
    forall q ensures q in GlobalView(c, files) <==> q in GlobalView(c, prior)
             ensures q in GlobalView(c, files) ==> GlobalView(c, files)[q] == GlobalView(c, prior)[q]
    {
      SameGlobalReach(c, files, prior, matchesDisk, q);
    }
  }

  // ----- Incremental equals full

  /** Unaffected files compile as before. */
  lemma UnaffectedCompilesAlike(c: Compiler, files: Files, prior: Files, matchesDisk: SourceFile -> bool, p: Path)
    requires Local(c) && QuietStep(c, files, prior, matchesDisk) && p in Unaffected(c, files, prior, matchesDisk)
    ensures Unchanged(files, prior, p) && c.compile(files, p) == c.compile(prior, p)
  {
    UnaffectedIsUnchanged(c, files, prior, matchesDisk, p);
    SameView(c, files, prior, matchesDisk, p);
    SameGlobalView(c, files, prior, matchesDisk);
  }

  /**
   If the previous program was correct and no file is skipped, the incremental audit gives every file
   exactly the diagnostics a full recomputation gives, after any edits, additions and removals.
   */
  lemma IncrementalEqualsFull(c: Compiler, files: Files, prior: Files, matchesDisk: SourceFile -> bool)
    requires Local(c)
    requires Skipped(files, prior, RecompiledFor(c, files, prior, matchesDisk)) == {}
    ensures IncrementalProgram(c, files, FullProgram(c, prior), matchesDisk) == FullProgram(c, files)
  {
    var previous := FullProgram(c, prior);
    var recompiled := RecompiledFor(c, files, prior, matchesDisk);
    forall p | p in files
      ensures EntryFor(c, files, previous, recompiled, p) == c.compile(files, p)
    {
      if p !in recompiled {
        UnaffectedCompilesAlike(c, files, prior, matchesDisk, p);
      }
    }
    assert IncrementalProgram(c, files, previous, matchesDisk).diagnostics == FullProgram(c, files).diagnostics;
  }

  // ----- Previous programs that are not correct

  /** The files about which a program says something else than the compiler. */
  ghost function Wrong(c: Compiler, program: Program): set<Path> {
    set p | p in program.files && (p !in program.diagnostics || program.diagnostics[p] != c.compile(program.files, p))
  }

  /** A program that has its own dependencies and an entry for each of its files, right or wrong. */
  ghost predicate IsCoherent(c: Compiler, program: Program) {
    program.dependencies == FullDependencies(c, program.files) && program.diagnostics.Keys == program.files.Keys
  }

  /** A program with nothing wrong and its own dependencies is the full one. */
  lemma NothingWrongIsFull(c: Compiler, program: Program)
    requires IsCoherent(c, program)
    ensures Wrong(c, program) == {} <==> program == FullProgram(c, program.files)
  {
    var full := FullProgram(c, program.files);
    if Wrong(c, program) == {} {
      forall p | p in program.files ensures program.diagnostics[p] == full.diagnostics[p] {
        assert p !in Wrong(c, program);
      }
      assert program.diagnostics == full.diagnostics;
    }
  }

  /**
   Whatever the previous program had wrong, an audit that skips no file is wrong exactly about those of its
   files that it does not recompile: mistakes never spread.
   */
  lemma MistakesNeverSpread(c: Compiler, files: Files, previous: Program, matchesDisk: SourceFile -> bool)
    requires Local(c) && previous.diagnostics.Keys == previous.files.Keys
    requires Skipped(files, previous.files, RecompiledFor(c, files, previous.files, matchesDisk)) == {}
    ensures Wrong(c, IncrementalProgram(c, files, previous, matchesDisk)) ==
            set p | p in files && p !in RecompiledFor(c, files, previous.files, matchesDisk) && p in Wrong(c, previous)
  {
    forall p | p in files
      ensures p in Wrong(c, IncrementalProgram(c, files, previous, matchesDisk)) <==>
              p !in RecompiledFor(c, files, previous.files, matchesDisk) && p in Wrong(c, previous)
    {
      MistakeIsCarried(c, files, previous, matchesDisk, p);
    }
  }

  lemma MistakeIsCarried(c: Compiler, files: Files, previous: Program, matchesDisk: SourceFile -> bool, p: Path)
    requires Local(c) && previous.diagnostics.Keys == previous.files.Keys && p in files
    requires Skipped(files, previous.files, RecompiledFor(c, files, previous.files, matchesDisk)) == {}
    ensures p in Wrong(c, IncrementalProgram(c, files, previous, matchesDisk)) <==>
            p !in RecompiledFor(c, files, previous.files, matchesDisk) && p in Wrong(c, previous)
  {
    var recompiled := RecompiledFor(c, files, previous.files, matchesDisk);
    var entry := EntryFor(c, files, previous, recompiled, p);
    assert IncrementalProgram(c, files, previous, matchesDisk).diagnostics[p] == entry;
    if p !in recompiled {
      UnaffectedCompilesAlike(c, files, previous.files, matchesDisk, p);
      assert entry == previous.diagnostics[p];
    }
  }

  lemma SameDiagnostics(a: Program, b: Program)
    requires a.files == b.files && a.dependencies == b.dependencies
    requires a.diagnostics.Keys == b.diagnostics.Keys
    ensures a == b <==> forall p :: p in a.diagnostics ==> a.diagnostics[p] == b.diagnostics[p]
  {
    if forall p :: p in a.diagnostics ==> a.diagnostics[p] == b.diagnostics[p] {
      assert a.diagnostics == b.diagnostics;
    }
  }

  lemma FirstEntry(c: Compiler, files: Files, matchesDisk: SourceFile -> bool, p: Path)
    requires p in files
    ensures IncrementalProgram(c, files, NO_PROGRAM, matchesDisk).diagnostics[p] ==
            FullProgram(c, files).diagnostics[p] <==>
            (p in Skipped(files, map[], RecompiledFor(c, files, map[], matchesDisk)) ==> c.compile(files, p) == [])
  {
    var recompiled := RecompiledFor(c, files, map[], matchesDisk);
    assert IncrementalProgram(c, files, NO_PROGRAM, matchesDisk).diagnostics[p] ==
           EntryFor(c, files, NO_PROGRAM, recompiled, p);
  }

  /** A first audit has no previous program: it is exact if and only if what it skips compiles without diagnostics. */
  lemma FirstAuditIsExactIff(c: Compiler, files: Files, matchesDisk: SourceFile -> bool)
    ensures IncrementalProgram(c, files, NO_PROGRAM, matchesDisk) == FullProgram(c, files) <==>
            forall p :: p in Skipped(files, map[], RecompiledFor(c, files, map[], matchesDisk)) ==>
              c.compile(files, p) == []
  {
    SameDiagnostics(IncrementalProgram(c, files, NO_PROGRAM, matchesDisk), FullProgram(c, files));
    forall p | p in files
      ensures IncrementalProgram(c, files, NO_PROGRAM, matchesDisk).diagnostics[p] ==
              FullProgram(c, files).diagnostics[p] <==>
              (p in Skipped(files, map[], RecompiledFor(c, files, map[], matchesDisk)) ==> c.compile(files, p) == [])
    {
      FirstEntry(c, files, matchesDisk, p);
    }
  }

  /** What an audit over a coherent program amounts to. */
  ghost predicate Outcome(c: Compiler, files: Files, previous: Program, matchesDisk: SourceFile -> bool,
                          indexed: Program) {
    var recompiled := RecompiledFor(c, files, previous.files, matchesDisk);
    Local(c) && Skipped(files, previous.files, recompiled) == {} ==>
      && Wrong(c, indexed) == (set p | p in files && p !in recompiled && p in Wrong(c, previous))
      && (Wrong(c, previous) == {} ==> indexed == FullProgram(c, files))
  }

  lemma AuditOutcome(c: Compiler, files: Files, previous: Program, matchesDisk: SourceFile -> bool)
    requires IsCoherent(c, previous)
    ensures Outcome(c, files, previous, matchesDisk, IncrementalProgram(c, files, previous, matchesDisk))
  {
    if Local(c) && Skipped(files, previous.files, RecompiledFor(c, files, previous.files, matchesDisk)) == {} {
      MistakesNeverSpread(c, files, previous, matchesDisk);
      NothingWrongIsFull(c, IncrementalProgram(c, files, previous, matchesDisk));
    }
  }

  /** Two compilers that resolve imports alike, so that the same files are affected under both. */
  ghost predicate SameResolution(c: Compiler, k: Compiler) {
    k.candidates == c.candidates && k.onDisk == c.onDisk && k.canChangeGlobals == c.canChangeGlobals
  }

  /** The compiler that has something to say about every file. */
  function AlwaysComplains(c: Compiler, d: Diagnostic): Compiler {
    c.(compile := (files: Files, p: Path) => [d])
  }

  lemma {:induction false} SameFirstExisting(c: Compiler, k: Compiler, roots: set<Path>, candidates: seq<Path>)
    requires SameResolution(c, k)
    ensures FirstExisting(c, roots, candidates) == FirstExisting(k, roots, candidates)
  {
    if candidates != [] {
      SameFirstExisting(c, k, roots, candidates[1..]);
    }
  }

  lemma SameAffected(c: Compiler, k: Compiler, files: Files, prior: Files, matchesDisk: SourceFile -> bool)
    requires SameResolution(c, k)
    ensures Affected(c, files, prior, matchesDisk) == Affected(k, files, prior, matchesDisk)
  {
    SameDependencies(c, k, files);
    SameDependencies(c, k, prior);
  }

  lemma SameRecompiled(c: Compiler, k: Compiler, files: Files, prior: Files, matchesDisk: SourceFile -> bool)
    requires SameResolution(c, k)
    ensures RecompiledFor(c, files, prior, matchesDisk) == RecompiledFor(k, files, prior, matchesDisk)
  {
    SameAffected(c, k, files, prior, matchesDisk);
    SameGlobalScope(c, k, files, prior, Affected(c, files, prior, matchesDisk));
  }

  lemma SameGlobalScope(c: Compiler, k: Compiler, files: Files, prior: Files, affected: set<Path>)
    requires SameResolution(c, k)
    ensures GlobalScopeChanged(c, files, prior, affected) == GlobalScopeChanged(k, files, prior, affected)
  {
    assert forall p :: IsGlobalIn(c, files, p) == IsGlobalIn(k, files, p);
    assert forall p :: IsGlobalIn(c, prior, p) == IsGlobalIn(k, prior, p);
  }

  lemma SameDependencies(c: Compiler, k: Compiler, files: Files)
    requires SameResolution(c, k)
    ensures FullDependencies(c, files) == FullDependencies(k, files)
  {
    forall p | p in files ensures Resolutions(c, files, p) == Resolutions(k, files, p) {
      forall i | 0 <= i < |c.candidates(p, files[p])|
        ensures Resolutions(c, files, p)[i] == Resolutions(k, files, p)[i]
      {
        SameFirstExisting(c, k, files.Keys, c.candidates(p, files[p])[i]);
      }
    }
  }

  ghost predicate Exact(k: Compiler, files: Files, prior: Files, matchesDisk: SourceFile -> bool) {
    IncrementalProgram(k, files, FullProgram(k, prior), matchesDisk) == FullProgram(k, files)
  }

  /** A skipped file is left without diagnostics. */
  lemma SkippedEntry(c: Compiler, files: Files, previous: Program, matchesDisk: SourceFile -> bool, p: Path)
    requires p in Skipped(files, previous.files, RecompiledFor(c, files, previous.files, matchesDisk))
    ensures p in files && IncrementalProgram(c, files, previous, matchesDisk).diagnostics[p] == []
  {
  }

  lemma ComplainerComplains(c: Compiler, d: Diagnostic, files: Files, p: Path)
    requires p in files
    ensures var k := AlwaysComplains(c, d);
            SameResolution(c, k) && Local(k) && FullProgram(k, files).diagnostics[p] == [d]
  {
  }

  lemma DifferentEntry(a: Program, b: Program, p: Path)
    requires p in a.diagnostics && p in b.diagnostics && a.diagnostics[p] != b.diagnostics[p]
    ensures a != b
  {
  }

  /** A skipped file loses its diagnostics. */
  lemma SkippedIsNotExact(c: Compiler, files: Files, prior: Files, matchesDisk: SourceFile -> bool, p: Path)
    returns (k: Compiler)
    requires p in Skipped(files, prior, RecompiledFor(c, files, prior, matchesDisk))
    ensures SameResolution(c, k) && Local(k) && !Exact(k, files, prior, matchesDisk)
  {
    k := AlwaysComplains(c, Diagnostic(1, 0, "", p));
    ComplainerComplains(c, Diagnostic(1, 0, "", p), files, p);
    SameRecompiled(c, k, files, prior, matchesDisk);
    SkippedEntry(k, files, FullProgram(k, prior), matchesDisk, p);
    DifferentEntry(IncrementalProgram(k, files, FullProgram(k, prior), matchesDisk), FullProgram(k, files), p);
  }

  lemma ExactWhenNoneSkipped(c: Compiler, k: Compiler, files: Files, prior: Files, matchesDisk: SourceFile -> bool)
    requires SameResolution(c, k) && Local(k)
    requires Skipped(files, prior, RecompiledFor(c, files, prior, matchesDisk)) == {}
    ensures Exact(k, files, prior, matchesDisk)
  {
    SameRecompiled(c, k, files, prior, matchesDisk);
    IncrementalEqualsFull(k, files, prior, matchesDisk);
  }

  /**
   The added files that match the disk are the only gap: the incremental audit is exact for every local
   compiler with these resolutions if and only if it skips no file.
   */
  lemma ExactUnlessSkipped(c: Compiler, files: Files, prior: Files, matchesDisk: SourceFile -> bool)
    ensures Skipped(files, prior, RecompiledFor(c, files, prior, matchesDisk)) == {} <==>
            forall k: Compiler :: SameResolution(c, k) && Local(k) ==> Exact(k, files, prior, matchesDisk)
  {
    var skipped := Skipped(files, prior, RecompiledFor(c, files, prior, matchesDisk));
    if skipped == {} {
      forall k: Compiler | SameResolution(c, k) && Local(k) ensures Exact(k, files, prior, matchesDisk) {
        ExactWhenNoneSkipped(c, k, files, prior, matchesDisk);
      }
    } else {
      var p :| p in skipped;
      var k := SkippedIsNotExact(c, files, prior, matchesDisk, p);
    }
  }

  // ----- The audit and its cache

  ghost predicate DistinctPaths(sourceFiles: seq<SourceFile>) {
    forall i, j :: 0 <= i < j < |sourceFiles| ==> sourceFiles[i].path != sourceFiles[j].path
  }

  /** The index of the first `n` files. */
  function Indexed(sourceFiles: seq<SourceFile>, n: nat): Files
    requires n <= |sourceFiles|
  {
    if n == 0 then map[] else Indexed(sourceFiles, n - 1)[sourceFiles[n - 1].path := sourceFiles[n - 1].source]
  }

  function SourceByPath(sourceFiles: seq<SourceFile>): Files {
    Indexed(sourceFiles, |sourceFiles|)
  }

  ghost predicate Lists(sourceFiles: seq<SourceFile>, n: nat, p: Path)
    requires n <= |sourceFiles|
  {
    exists i :: 0 <= i < n && sourceFiles[i].path == p
  }

  lemma {:induction false} IndexedKeys(sourceFiles: seq<SourceFile>, n: nat, p: Path)
    requires n <= |sourceFiles|
    ensures p in Indexed(sourceFiles, n) <==> Lists(sourceFiles, n, p)
  {
    if n > 0 {
      IndexedKeys(sourceFiles, n - 1, p);
      assert sourceFiles[n - 1].path == p ==> Lists(sourceFiles, n, p);
    }
  }

  /** The first `n` files name `n` paths. */
  ghost predicate DistinctUpTo(sourceFiles: seq<SourceFile>, n: nat)
    requires n <= |sourceFiles|
  {
    forall i, j :: 0 <= i < j < n ==> sourceFiles[i].path != sourceFiles[j].path
  }

  lemma DistinctNext(sourceFiles: seq<SourceFile>, n: nat)
    requires 0 < n <= |sourceFiles|
    ensures DistinctUpTo(sourceFiles, n) <==>
            DistinctUpTo(sourceFiles, n - 1) && !Lists(sourceFiles, n - 1, sourceFiles[n - 1].path)
  {
  }

  /** A repeated path, and nothing else, makes the index smaller than the list. */
  lemma {:induction false} IndexedSize(sourceFiles: seq<SourceFile>, n: nat)
    requires n <= |sourceFiles|
    ensures |Indexed(sourceFiles, n)| <= n
    ensures |Indexed(sourceFiles, n)| == n <==> DistinctUpTo(sourceFiles, n)
  {
    if n > 0 {
      var path := sourceFiles[n - 1].path;
      IndexedSize(sourceFiles, n - 1);
      IndexedKeys(sourceFiles, n - 1, path);
      DistinctNext(sourceFiles, n);
      var before := Indexed(sourceFiles, n - 1);
      assert Indexed(sourceFiles, n).Keys == before.Keys + {path};
      assert path in before ==> before.Keys + {path} == before.Keys;
    }
  }

  /** Resolution reads only a file's text and which roots exist, so equal roots allow reuse. */
  lemma ReuseUnderIdenticalRoots(c: Compiler, files: Files, prior: Files, p: Path)
    requires files.Keys == prior.Keys && Unchanged(files, prior, p)
    ensures FullDependencies(c, files)[p] == FullDependencies(c, prior)[p]
  {
  }

  /** One entry of the dependency index: reused only under identical roots and an identical text. */
  function EntryDependencies(c: Compiler, files: Files, previous: Program, rootsAreIdentical: bool, p: Path): seq<Path>
    requires p in files
  {
    if rootsAreIdentical && Unchanged(files, previous.files, p) && p in previous.dependencies
    then previous.dependencies[p]
    else Dependencies(c, files, p)
  }

  /** Where the size and inclusion test passes, it stands for equality of the roots exactly when paths are distinct. */
  lemma RootTestIsExactIff(sourceFiles: seq<SourceFile>, prior: Files)
    requires |prior| == |sourceFiles|
    requires forall i :: 0 <= i < |sourceFiles| ==> sourceFiles[i].path in prior
    ensures SourceByPath(sourceFiles).Keys == prior.Keys <==> DistinctPaths(sourceFiles)
  {
    var files := SourceByPath(sourceFiles);
    IndexedSize(sourceFiles, |sourceFiles|);
    forall p | p in files ensures p in prior {
      IndexedKeys(sourceFiles, |sourceFiles|, p);
    }
    SubsetSize(files.Keys, prior.Keys);
    assert |files| == |files.Keys| && |prior| == |prior.Keys|;
  }

  method SourceDependencyPaths(c: Compiler, sourceFiles: seq<SourceFile>,
                               previous: Program) returns (dependencies: Graph)
    requires DistinctPaths(sourceFiles)
    requires previous.dependencies == FullDependencies(c, previous.files)
    ensures dependencies == FullDependencies(c, SourceByPath(sourceFiles))
  {
    var files := SourceByPath(sourceFiles);
    var rootsAreIdentical :=
      |previous.files| == |sourceFiles| && forall i :: 0 <= i < |sourceFiles| ==> sourceFiles[i].path in previous.files;
    if rootsAreIdentical {
      RootTestIsExactIff(sourceFiles, previous.files);
    }
    dependencies := map p | p in files :: EntryDependencies(c, files, previous, rootsAreIdentical, p);
    forall p | p in files ensures dependencies[p] == Dependencies(c, files, p) {
      if rootsAreIdentical && Unchanged(files, previous.files, p) {
        ReuseUnderIdenticalRoots(c, files, previous.files, p);
      }
    }
  }

  /**
   The size test stands for equality of roots only because paths are distinct: a list naming one path
   twice passes it against a program that has another path besides.
   */
  lemma RepeatedPathDefeatsRootTest(p: Path, q: Path, text: Text)
    requires p != q
    ensures var sourceFiles := [SourceFile(p, text), SourceFile(p, text)];
            var prior := map[p := text, q := text];
            && |prior| == |sourceFiles|
            && (forall i :: 0 <= i < |sourceFiles| ==> sourceFiles[i].path in prior)
            && SourceByPath(sourceFiles).Keys != prior.Keys
  {
    var sourceFiles := [SourceFile(p, text), SourceFile(p, text)];
    IndexedKeys(sourceFiles, 2, q);
    assert |map[p := text, q := text]| == |{p, q}| by { assert map[p := text, q := text].Keys == {p, q}; }
  }

  /** Diagnostics are recompiled for what a change can affect and otherwise taken over. */
  method CompilerDiagnostics(c: Compiler, files: Files, previous: Program, dependencies: Graph,
                             matchesDisk: SourceFile -> bool)
    returns (diagnostics: map<Path, seq<Diagnostic>>)
    requires dependencies == FullDependencies(c, files)
    requires previous.dependencies == FullDependencies(c, previous.files)
    ensures diagnostics == IncrementalProgram(c, files, previous, matchesDisk).diagnostics
  {
    var changed := Changed(files, previous.files, matchesDisk);
    var removed := previous.files.Keys - files.Keys;
    var affected := AffectedSourcePaths(files.Keys, dependencies, previous.dependencies, changed, removed);
    var recompiled := Recompiled(c, files, previous.files, affected);
    diagnostics := map p | p in files :: EntryFor(c, files, previous, recompiled, p);
  }

  /** Nothing remembered shares more files than the program used. */
  ghost predicate BestMatch(used: Program, remembered: Option<Program>, sourceFiles: seq<SourceFile>) {
    remembered.Some? ==> MatchingSourceCount(remembered.value, sourceFiles) <= MatchingSourceCount(used, sourceFiles)
  }

  lemma {:induction false} NothingMatches(sourceFiles: seq<SourceFile>)
    ensures MatchingSourceCount(NO_PROGRAM, sourceFiles) == 0
  {
    if sourceFiles != [] {
      NothingMatches(sourceFiles[1..]);
    }
  }

  /** How many of the files a remembered program has with the same text. */
  function MatchingSourceCount(candidate: Program, sourceFiles: seq<SourceFile>): nat {
    if sourceFiles == [] then 0
    else
      MatchingSourceCount(candidate, sourceFiles[1..]) +
      (if sourceFiles[0].path in candidate.files && candidate.files[sourceFiles[0].path] == sourceFiles[0].source
        then 1 else 0)
  }


  /** Keeps the latest and the largest program audited so far. */
  class AuditCache {
    var latest: Option<Program>
    var largest: Option<Program>

    constructor ()
      ensures latest == None && largest == None
    {
      latest, largest := None, None;
    }

    ghost predicate Coherent(c: Compiler)
      reads this
    {
      && (latest.Some? ==> IsCoherent(c, latest.value))
      && (largest.Some? ==> IsCoherent(c, largest.value))
    }

    /** The largest program is never smaller than the latest. */
    ghost predicate Bounded()
      reads this
    {
      latest.Some? ==> largest.Some? && |latest.value.files| <= |largest.value.files|
    }

    method Remember(indexed: Program)
      requires Bounded()
      modifies this
      ensures latest == Some(indexed) && Bounded()
      ensures largest == if old(largest).Some? && |indexed.files| <= |old(largest).value.files| then old(largest)
              else Some(indexed)
    {
      latest := Some(indexed);
      if largest.None? || |indexed.files| > |largest.value.files| {
        largest := Some(indexed);
      }
    }

    /** The remembered program that shares the most files with the new list, if any shares one. */
    method PreviousSourceProgram(sourceFiles: seq<SourceFile>) returns (previous: Option<Program>)
      requires Bounded()
      ensures previous.None? || previous == latest || previous == largest
      ensures previous.Some? ==> MatchingSourceCount(previous.value, sourceFiles) > 0
      ensures forall p :: Some(p) == latest || Some(p) == largest ==>
                MatchingSourceCount(p, sourceFiles) <=
                if previous.Some? then MatchingSourceCount(previous.value, sourceFiles) else 0
      ensures latest.Some? && previous.Some? && previous != latest ==>
                MatchingSourceCount(latest.value, sourceFiles) < MatchingSourceCount(previous.value, sourceFiles)
    {
      if latest.None? {
        if largest.Some? && MatchingSourceCount(largest.value, sourceFiles) > 0 {
          return largest;
        }
        return None;
      }
      var latestMatches := MatchingSourceCount(latest.value, sourceFiles);
      if largest.None? || largest == latest {
        if latestMatches > 0 {
          return latest;
        }
        return None;
      }
      var largestMatches := MatchingSourceCount(largest.value, sourceFiles);
      if latestMatches == 0 && largestMatches == 0 {
        return None;
      }
      if largestMatches > latestMatches {
        return largest;
      }
      return latest;
    }

    /**
     One audit, after any audits before it. The result is the incremental program over one of the
     remembered programs. If no file is skipped it is wrong only about files that this program was already
     wrong about, so it equals the full recomputation whenever that one did.
     */
    method Audit(c: Compiler, sourceFiles: seq<SourceFile>, matchesDisk: SourceFile -> bool)
      returns (indexed: Program, ghost previous: Program)
      requires DistinctPaths(sourceFiles)
      requires Coherent(c) && Bounded()
      modifies this
      ensures Coherent(c) && Bounded() && latest == Some(indexed)
      ensures previous == NO_PROGRAM || Some(previous) == old(latest) || Some(previous) == old(largest)
      ensures BestMatch(previous, old(latest), sourceFiles) && BestMatch(previous, old(largest), sourceFiles)
      ensures previous != NO_PROGRAM && Some(previous) != old(latest) && old(latest).Some? ==>
                MatchingSourceCount(old(latest).value, sourceFiles) < MatchingSourceCount(previous, sourceFiles)
      ensures indexed == IncrementalProgram(c, SourceByPath(sourceFiles), previous, matchesDisk)
      ensures Outcome(c, SourceByPath(sourceFiles), previous, matchesDisk, indexed)
    {
      var files := SourceByPath(sourceFiles);
      var remembered := PreviousSourceProgram(sourceFiles);
      var start := if remembered.Some? then remembered.value else NO_PROGRAM;
      previous := start;
      NothingMatches(sourceFiles);
      var dependencies := SourceDependencyPaths(c, sourceFiles, start);
      var diagnostics := CompilerDiagnostics(c, files, start, dependencies, matchesDisk);
      indexed := Program(files, dependencies, diagnostics);
      Remember(indexed);
      AuditOutcome(c, files, previous, matchesDisk);
    }
  }
}
