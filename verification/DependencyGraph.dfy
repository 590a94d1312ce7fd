/** Finite dependency graphs, reachability along their edges, and the affected-set worklist. */
module DependencyGraph {
  import opened Common


  type Path = string

  /** Each source path with the source paths it depends on. */
  type Graph = map<Path, seq<Path>>

  ghost predicate Edge(g: Graph, from: Path, to: Path) {
    from in g && to in g[from]
  }

  ghost predicate IsChain(g: Graph, chain: seq<Path>) {
    forall i :: 0 <= i < |chain| - 1 ==> Edge(g, chain[i], chain[i + 1])
  }

  ghost predicate ChainFromTo(g: Graph, chain: seq<Path>, from: Path, to: Path) {
    |chain| > 0 && chain[0] == from && chain[|chain| - 1] == to && IsChain(g, chain)
  }

  /** `to` is in the dependency closure of `from`. */
  ghost predicate Reaches(g: Graph, from: Path, to: Path) {
    exists chain :: ChainFromTo(g, chain, from, to)
  }

  lemma ReachesSelf(g: Graph, p: Path)
    ensures Reaches(g, p, p)
  {
    assert ChainFromTo(g, [p], p, p);
  }

  lemma ReachesStep(g: Graph, from: Path, mid: Path, to: Path)
    requires Edge(g, from, mid) && Reaches(g, mid, to)
    ensures Reaches(g, from, to)
  {
    var chain :| ChainFromTo(g, chain, mid, to);
    var longer := [from] + chain;
    forall i | 0 <= i < |longer| - 1 ensures Edge(g, longer[i], longer[i + 1]) {
      if i > 0 {
        assert Edge(g, chain[i - 1], chain[i]);
      }
    }
    assert ChainFromTo(g, longer, from, to);
  }

  /** A set with everything that depends directly on one of its members. */
  ghost predicate ClosedUnderDependents(g: Graph, s: set<Path>) {
    forall from, to :: Edge(g, from, to) && to in s ==> from in s
  }

  lemma {:induction false} ClosedContainsChain(g: Graph, s: set<Path>, chain: seq<Path>)
    requires |chain| > 0 && IsChain(g, chain) && chain[|chain| - 1] in s
    requires ClosedUnderDependents(g, s)
    ensures chain[0] in s
  {
    if |chain| > 1 {
      var rest := chain[1..];
      forall i | 0 <= i < |rest| - 1 ensures Edge(g, rest[i], rest[i + 1]) {
        assert Edge(g, chain[i + 1], chain[i + 1 + 1]);
      }
      ClosedContainsChain(g, s, rest);
      assert Edge(g, chain[0], chain[1]);
    }
  }

  // ----- Dependents of a set of seeds

  ghost predicate ReachesSome(g: Graph, from: Path, seeds: set<Path>) {
    exists s :: s in seeds && Reaches(g, from, s)
  }

  /** The paths of `universe` whose closure meets the seeds. */
  ghost function Dependents(g: Graph, universe: set<Path>, seeds: set<Path>): set<Path> {
    set p | p in universe && ReachesSome(g, p, seeds)
  }

  lemma SeedReaches(g: Graph, p: Path, seeds: set<Path>)
    requires p in seeds
    ensures ReachesSome(g, p, seeds)
  {
    ReachesSelf(g, p);
  }

  lemma DependentReaches(g: Graph, from: Path, to: Path, seeds: set<Path>)
    requires Edge(g, from, to) && ReachesSome(g, to, seeds)
    ensures ReachesSome(g, from, seeds)
  {
    var s :| s in seeds && Reaches(g, to, s);
    ReachesStep(g, from, to, s);
  }

  /** Any set that holds the seeds and is closed under dependents holds everything that reaches a seed. */
  lemma LeastClosedSet(g: Graph, s: set<Path>, seeds: set<Path>, p: Path)
    requires seeds <= s && ClosedUnderDependents(g, s) && ReachesSome(g, p, seeds)
    ensures p in s
  {
    var seed :| seed in seeds && Reaches(g, p, seed);
    var chain :| ChainFromTo(g, chain, p, seed);
    ClosedContainsChain(g, s, chain);
  }

  // ----- The union of the old and the new graph

  function Get(g: Graph, p: Path): seq<Path> {
    if p in g then g[p] else []
  }

  ghost function Union(a: Graph, b: Graph): Graph {
    map p | p in a.Keys + b.Keys :: Get(a, p) + Get(b, p)
  }

  lemma UnionEdges(a: Graph, b: Graph, from: Path, to: Path)
    ensures Edge(Union(a, b), from, to) <==> Edge(a, from, to) || Edge(b, from, to)
  {
  }

  // ----- The worklist

  type Reverse = map<Path, set<Path>>

  ghost predicate HasDependent(reverse: Reverse, to: Path, from: Path) {
    to in reverse && from in reverse[to]
  }

  function WithDependent(reverse: Reverse, to: Path, from: Path): Reverse {
    reverse[to := (if to in reverse then reverse[to] else {}) + {from}]
  }

  lemma WithDependentHas(reverse: Reverse, to: Path, from: Path, x: Path, y: Path)
    ensures HasDependent(WithDependent(reverse, to, from), x, y) <==>
            HasDependent(reverse, x, y) || (x == to && y == from)
  {
  }

  lemma TakeMembers<T>(s: seq<T>, n: nat)
    requires n < |s|
    ensures forall x :: x in s[..n + 1] <==> x in s[..n] || x == s[n]
  {
    TakeSnoc(s, n);
  }

  /** The inner loop: one path with what it depends on. */
  method AddDependent(reverseIn: Reverse, sourcePath: Path, paths: seq<Path>) returns (reverse: Reverse)
    ensures forall to, from :: HasDependent(reverse, to, from) <==>
                               HasDependent(reverseIn, to, from) || (from == sourcePath && to in paths)
  {
    reverse := reverseIn;
    for n := 0 to |paths|
      invariant forall to, from :: HasDependent(reverse, to, from) <==>
                                   HasDependent(reverseIn, to, from) || (from == sourcePath && to in paths[..n])
    {
      forall to, from ensures HasDependent(WithDependent(reverse, paths[n], sourcePath), to, from) <==>
                              HasDependent(reverse, to, from) || (to == paths[n] && from == sourcePath)
      {
        WithDependentHas(reverse, paths[n], sourcePath, to, from);
      }
      TakeMembers(paths, n);
      reverse := WithDependent(reverse, paths[n], sourcePath);
    }
    assert paths[..|paths|] == paths;
  }

  method AddReverseDependencies(reverseIn: Reverse, dependencies: Graph) returns (reverse: Reverse)
    ensures forall to, from :: HasDependent(reverse, to, from) <==>
                               HasDependent(reverseIn, to, from) || Edge(dependencies, from, to)
  {
    reverse := reverseIn;
    var todo := dependencies.Keys;
    while todo != {}
      invariant todo <= dependencies.Keys
      invariant forall to, from :: HasDependent(reverse, to, from) <==>
                                   HasDependent(reverseIn, to, from) || (from !in todo && Edge(dependencies, from, to))
      decreases todo
    {
      var sourcePath :| sourcePath in todo;
      reverse := AddDependent(reverse, sourcePath, dependencies[sourcePath]);
      todo := todo - {sourcePath};
    }
  }

  /** The members of a set in some order. */
  method Enumerate(s: set<Path>) returns (items: seq<Path>)
    ensures forall p :: p in items <==> p in s
  {
    items := [];
    var todo := s;
    while todo != {}
      invariant todo <= s
      invariant forall p :: p in items <==> p in s && p !in todo
      decreases todo
    {
      var p :| p in todo;
      items := items + [p];
      todo := todo - {p};
    }
  }

  /** Adds the dependents of one pending path that are not in the affected set yet. */
  method AddDependents(dependents: set<Path>, affectedIn: set<Path>, pendingIn: seq<Path>)
    returns (affected: set<Path>, pending: seq<Path>)
    ensures affected == affectedIn + dependents
    ensures pendingIn <= pending
    ensures affected == affectedIn ==> pending == pendingIn
    ensures forall p :: p in pending <==> p in pendingIn || (p in dependents && p !in affectedIn)
  {
    affected, pending := affectedIn, pendingIn;
    var todo := dependents;
    while todo != {}
      invariant todo <= dependents
      invariant affected == affectedIn + (dependents - todo)
      invariant pendingIn <= pending
      invariant affected == affectedIn ==> pending == pendingIn
      invariant forall p :: p in pending <==> p in pendingIn || (p in dependents && p !in todo && p !in affectedIn)
      decreases todo
    {
      var dependent :| dependent in todo;
      todo := todo - {dependent};
      if dependent !in affected {
        affected := affected + {dependent};
        pending := pending + [dependent];
      }
    }
  }

  ghost predicate Reverses(reverse: Reverse, g: Graph) {
    forall to, from :: HasDependent(reverse, to, from) <==> Edge(g, from, to)
  }

  ghost predicate Processed(reverse: Reverse, done: seq<Path>, affected: set<Path>) {
    forall to, from :: to in done && HasDependent(reverse, to, from) ==> from in affected
  }

  ghost predicate AllReach(g: Graph, paths: set<Path>, seeds: set<Path>) {
    forall p :: p in paths ==> ReachesSome(g, p, seeds)
  }

  lemma AddedReach(reverse: Reverse, g: Graph, path: Path, seeds: set<Path>)
    requires Reverses(reverse, g) && path in reverse && ReachesSome(g, path, seeds)
    ensures AllReach(g, reverse[path], seeds)
    ensures reverse[path] <= g.Keys
  {
    forall from | from in reverse[path] ensures ReachesSome(g, from, seeds) && from in g {
      assert HasDependent(reverse, path, from);
      DependentReaches(g, from, path, seeds);
    }
  }

  lemma PrefixKept<T>(before: seq<T>, after: seq<T>, n: nat)
    requires before <= after && n <= |before|
    ensures after[..n] == before[..n]
  {
  }

  lemma StepProcessed(reverse: Reverse, done: seq<Path>, path: Path, before: set<Path>, after: set<Path>)
    requires Processed(reverse, done, before) && before <= after
    requires path in reverse ==> reverse[path] <= after
    ensures Processed(reverse, done + [path], after)
  {
  }

  lemma EverythingFound(reverse: Reverse, g: Graph, pending: seq<Path>, affected: set<Path>, seeds: set<Path>)
    requires Reverses(reverse, g) && Processed(reverse, pending, affected)
    requires seeds <= affected && forall p :: p in affected ==> p in pending
    ensures forall p :: ReachesSome(g, p, seeds) ==> p in affected
  {
    assert ClosedUnderDependents(g, affected) by {
      forall from, to | Edge(g, from, to) && to in affected ensures from in affected {
        assert HasDependent(reverse, to, from);
      }
    }
    forall p | ReachesSome(g, p, seeds) ensures p in affected {
      LeastClosedSet(g, affected, seeds, p);
    }
  }

  ghost predicate Listed(pending: seq<Path>, affected: set<Path>) {
    forall p :: p in pending <==> p in affected
  }

  /** The first `index` pending paths are done: their dependents are affected, and so is nothing but what reaches a
   seed. */
  ghost predicate Searching(reverse: Reverse, g: Graph, seeds: set<Path>, pending: seq<Path>, index: nat,
                            affected: set<Path>)
  {
    && index <= |pending|
    && seeds <= affected <= seeds + g.Keys
    && Listed(pending, affected)
    && AllReach(g, affected, seeds)
    && Processed(reverse, pending[..index], affected)
  }

  lemma StepKeepsSearching(reverse: Reverse, g: Graph, seeds: set<Path>, pending: seq<Path>, index: nat,
                           affected: set<Path>,
                           added: set<Path>, next: seq<Path>)
    requires Reverses(reverse, g) && index < |pending| && Searching(reverse, g, seeds, pending, index, affected)
    requires added == if pending[index] in reverse then reverse[pending[index]] else {}
    requires pending <= next && Listed(next, affected + added)
    ensures Searching(reverse, g, seeds, next, index + 1, affected + added)
  {
    var path := pending[index];
    if path in reverse {
      AddedReach(reverse, g, path, seeds);
    }
    StepProcessed(reverse, pending[..index], path, affected, affected + added);
    TakeSnoc(pending, index);
    PrefixKept(pending, next, index + 1);
  }

  /** One turn of the loop. */
  method ProcessPath(reverse: Reverse, ghost g: Graph, ghost seeds: set<Path>, pendingIn: seq<Path>, index: nat,
                     affectedIn: set<Path>) returns (affected: set<Path>, pending: seq<Path>)
    requires Reverses(reverse, g) && index < |pendingIn| && Searching(reverse, g, seeds, pendingIn, index, affectedIn)
    ensures Searching(reverse, g, seeds, pending, index + 1, affected)
    ensures affectedIn <= affected && (affected == affectedIn ==> pending == pendingIn)
  {
    var path := pendingIn[index];
    var dependents := if path in reverse then reverse[path] else {};
    affected, pending := AddDependents(dependents, affectedIn, pendingIn);
    StepKeepsSearching(reverse, g, seeds, pendingIn, index, affectedIn, dependents, pending);
  }

  lemma SearchStarts(reverse: Reverse, g: Graph, seeds: set<Path>, pending: seq<Path>)
    requires Listed(pending, seeds)
    ensures Searching(reverse, g, seeds, pending, 0, seeds)
  {
    forall p | p in seeds ensures ReachesSome(g, p, seeds) {
      SeedReaches(g, p, seeds);
    }
  }

  lemma SearchEnds(reverse: Reverse, g: Graph, seeds: set<Path>, pending: seq<Path>, affected: set<Path>)
    requires Reverses(reverse, g) && Searching(reverse, g, seeds, pending, |pending|, affected)
    ensures forall p :: p in affected <==> ReachesSome(g, p, seeds)
  {
    assert pending[..|pending|] == pending;
    EverythingFound(reverse, g, pending, affected, seeds);
  }

  /** The breadth-first loop over pending paths. */
  method Propagate(reverse: Reverse, ghost g: Graph, seeds: set<Path>) returns (affected: set<Path>)
    requires Reverses(reverse, g)
    ensures forall p :: p in affected <==> ReachesSome(g, p, seeds)
  {
    affected := seeds;
    var pending := Enumerate(seeds);
    SearchStarts(reverse, g, seeds, pending);
    var index := 0;
    while index < |pending|
      invariant 0 <= index && Searching(reverse, g, seeds, pending, index, affected)
      decreases seeds + g.Keys - affected, |pending| - index
    {
      affected, pending := ProcessPath(reverse, g, seeds, pending, index, affected);
      index := index + 1;
    }
    SearchEnds(reverse, g, seeds, pending, affected);
  }

  /**
   The worklist terminates and returns exactly the current paths from which a changed or removed path
   can be reached along edges of the old or the new graph.
   */
  method AffectedSourcePaths(current: set<Path>, dependencies: Graph, previous: Graph,
                             changed: set<Path>, removed: set<Path>) returns (result: set<Path>)
    ensures result == Dependents(Union(dependencies, previous), current, changed + removed)
  {
    var reverse := AddReverseDependencies(map[], dependencies);
    reverse := AddReverseDependencies(reverse, previous);
    ghost var g := Union(dependencies, previous);
    forall to, from ensures HasDependent(reverse, to, from) <==> Edge(g, from, to) {
      UnionEdges(dependencies, previous, from, to);
    }
    var affected := Propagate(reverse, g, changed + removed);
    result := set p | p in affected && p in current;
  }
}
