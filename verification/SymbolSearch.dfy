/**
 The search for a symbol behind an expression: through the syntax tree, and through the initializers and
 bodies of whatever the names in it resolve to, each symbol being opened at most once.
 */
module SymbolSearch {
  import opened Common

  type Symbol = nat

  /** A syntax node with the symbol the checker finds at it; only names and property accesses carry one. */
  datatype Node = Node(symbol: Option<Symbol>, children: seq<Node>)

  /**
   What the checker knows. `resolve` follows an alias, or fails on a broken one. `declarations` holds,
   for each symbol, the initializers of its variable declarations and the bodies of its functions.
   */
  datatype Checker = Checker(resolve: Symbol -> Option<Symbol>, declarations: map<Symbol, seq<Node>>)

  function Resolved(checker: Checker, node: Node): Option<Symbol> {
    match node.symbol
    case None => None
    case Some(s) => checker.resolve(s)
  }

  function Bodies(checker: Checker, s: Symbol): seq<Node> {
    if s in checker.declarations then checker.declarations[s] else []
  }

  // ----- Reachability, independently of any traversal

  /** The symbols named anywhere in a tree. */
  function Named(checker: Checker, node: Node): set<Symbol> {
    (if Resolved(checker, node).Some? then {Resolved(checker, node).value} else {}) + NamedIn(checker, node.children)
  }

  function NamedIn(checker: Checker, nodes: seq<Node>): set<Symbol> {
    if nodes == [] then {} else Named(checker, nodes[0]) + NamedIn(checker, nodes[1..])
  }

  /** Each symbol of the trail is named in a declaration of the one before it. */
  ghost predicate IsTrail(checker: Checker, trail: seq<Symbol>) {
    forall i :: 0 <= i < |trail| - 1 ==> trail[i + 1] in NamedIn(checker, Bodies(checker, trail[i]))
  }

  /** `expected` can be reached from the tree without opening a symbol of `seen`. */
  ghost predicate Leads(checker: Checker, root: Node, expected: Symbol, seen: set<Symbol>, trail: seq<Symbol>) {
    && |trail| > 0 && trail[0] in Named(checker, root) && trail[|trail| - 1] == expected
    && IsTrail(checker, trail)
    && forall i :: 0 <= i < |trail| - 1 ==> trail[i] !in seen
  }

  ghost predicate References(checker: Checker, root: Node, expected: Symbol, seen: set<Symbol>) {
    exists trail :: Leads(checker, root, expected, seen, trail)
  }

  // ----- Lists of trees

  lemma {:induction false} NamedInMember(checker: Checker, nodes: seq<Node>, i: nat)
    requires i < |nodes|
    ensures Named(checker, nodes[i]) <= NamedIn(checker, nodes)
  {
    if i > 0 {
      NamedInMember(checker, nodes[1..], i - 1);
    }
  }

  lemma {:induction false} NamedInSnoc(checker: Checker, nodes: seq<Node>, n: nat)
    requires n < |nodes|
    ensures NamedIn(checker, nodes[..n + 1]) == NamedIn(checker, nodes[..n]) + Named(checker, nodes[n])
  {
    if n == 0 {
      assert nodes[..1] == [nodes[0]];
    } else {
      assert nodes[1..][..n - 1] == nodes[..n][1..];
      assert nodes[1..][..n] == nodes[..n + 1][1..];
      NamedInSnoc(checker, nodes[1..], n - 1);
    }
  }

  // ----- Extending trails

  lemma {:induction false} Prepend(checker: Checker, root: Node, s: Symbol, body: Node, expected: Symbol,
                                   seen: set<Symbol>)
    requires s in Named(checker, root) && s !in seen
    requires body in Bodies(checker, s) && References(checker, body, expected, seen)
    ensures References(checker, root, expected, seen)
  {
    var trail :| Leads(checker, body, expected, seen, trail);
    var i :| 0 <= i < |Bodies(checker, s)| && Bodies(checker, s)[i] == body;
    NamedInMember(checker, Bodies(checker, s), i);
    var longer := [s] + trail;
    forall j | 0 <= j < |longer| - 1
      ensures longer[j + 1] in NamedIn(checker, Bodies(checker, longer[j])) && longer[j] !in seen
    {
      if j > 0 {
        assert trail[j - 1 + 1] in NamedIn(checker, Bodies(checker, trail[j - 1]));
      }
    }
    assert Leads(checker, root, expected, seen, longer);
  }

  lemma FromChild(checker: Checker, root: Node, child: Node, expected: Symbol, seen: set<Symbol>)
    requires child in root.children && References(checker, child, expected, seen)
    ensures References(checker, root, expected, seen)
  {
    var trail :| Leads(checker, child, expected, seen, trail);
    var i :| 0 <= i < |root.children| && root.children[i] == child;
    NamedInMember(checker, root.children, i);
    assert Leads(checker, root, expected, seen, trail);
  }

  lemma Weaken(checker: Checker, root: Node, expected: Symbol, seen: set<Symbol>, more: set<Symbol>)
    requires seen <= more && References(checker, root, expected, more)
    ensures References(checker, root, expected, seen)
  {
    var trail :| Leads(checker, root, expected, more, trail);
    assert Leads(checker, root, expected, seen, trail);
  }

  // ----- The traversal

  /** Everything named in a declaration opened since `before` has been visited, and none of it is `expected`. */
  ghost predicate Opened(checker: Checker, expected: Symbol, before: set<Symbol>, after: set<Symbol>) {
    forall s :: s in after && s !in before ==>
      NamedIn(checker, Bodies(checker, s)) <= after && expected !in NamedIn(checker, Bodies(checker, s))
  }

  lemma OpenedChain(checker: Checker, expected: Symbol, a: set<Symbol>, b: set<Symbol>, c: set<Symbol>)
    requires a <= b <= c && Opened(checker, expected, a, b) && Opened(checker, expected, b, c)
    ensures Opened(checker, expected, a, c)
  {
  }

  /**
   The recursive visit. A hit proves a reference; without one, everything named in the tree has been
   visited and everything newly visited has been opened.
   */
  method Visit(checker: Checker, node: Node, expected: Symbol, visitedIn: set<Symbol>)
    returns (found: bool, visited: set<Symbol>)
    ensures visitedIn <= visited
    ensures found ==> References(checker, node, expected, visitedIn)
    ensures !found ==> Named(checker, node) <= visited && expected !in Named(checker, node)
    ensures !found ==> Opened(checker, expected, visitedIn, visited)
    decreases checker.declarations.Keys - visitedIn, 1, node
  {
    found, visited := false, visitedIn;
    var resolved := Resolved(checker, node);
    if resolved.Some? {
      var s := resolved.value;
      if s == expected {
        assert Leads(checker, node, expected, visitedIn, [s]);
        found := true;
        return;
      }
      if s !in visited {
        visited := visited + {s};
        found, visited := VisitDeclarations(checker, s, expected, visited);
        if found {
          ghost var body :| body in Bodies(checker, s) && References(checker, body, expected, visitedIn + {s});
          Weaken(checker, body, expected, visitedIn, visitedIn + {s});
          Prepend(checker, node, s, body, expected, visitedIn);
          return;
        }
      }
    }
    for n := 0 to |node.children|
      invariant visitedIn <= visited
      invariant resolved.Some? ==> resolved.value in visited
      invariant NamedIn(checker, node.children[..n]) <= visited
      invariant expected !in NamedIn(checker, node.children[..n])
      invariant Opened(checker, expected, visitedIn, visited)
    {
      ghost var before := visited;
      found, visited := Visit(checker, node.children[n], expected, visited);
      if found {
        Weaken(checker, node.children[n], expected, visitedIn, before);
        FromChild(checker, node, node.children[n], expected, visitedIn);
        return;
      }
      NamedInSnoc(checker, node.children, n);
      OpenedChain(checker, expected, visitedIn, before, visited);
    }
    assert node.children[..|node.children|] == node.children;
  }

  /** The loop over the declarations of a symbol that has just been marked visited. */
  method VisitDeclarations(checker: Checker, s: Symbol, expected: Symbol, visitedIn: set<Symbol>)
    returns (found: bool, visited: set<Symbol>)
    requires s in visitedIn
    ensures visitedIn <= visited
    ensures found ==> exists body :: body in Bodies(checker, s) && References(checker, body, expected, visitedIn)
    ensures !found ==>
              NamedIn(checker, Bodies(checker, s)) <= visited && expected !in NamedIn(checker, Bodies(checker, s))
    ensures !found ==> Opened(checker, expected, visitedIn, visited)
    decreases checker.declarations.Keys - (visitedIn - {s}), 0
  {
    found, visited := false, visitedIn;
    var bodies := Bodies(checker, s);
    for n := 0 to |bodies|
      invariant visitedIn <= visited
      invariant NamedIn(checker, bodies[..n]) <= visited && expected !in NamedIn(checker, bodies[..n])
      invariant Opened(checker, expected, visitedIn, visited)
    {
      ghost var before := visited;
      found, visited := Visit(checker, bodies[n], expected, visited);
      if found {
        Weaken(checker, bodies[n], expected, visitedIn, before);
        return;
      }
      NamedInSnoc(checker, bodies, n);
      OpenedChain(checker, expected, visitedIn, before, visited);
    }
    assert bodies[..|bodies|] == bodies;
  }

  // ----- Exactness

  /** Along a trail that opens no symbol of `seen`, everything is visited and the end is not `expected`. */
  lemma {:induction false} TrailStaysInside(
      checker: Checker, expected: Symbol, seen: set<Symbol>, visited: set<Symbol>, trail: seq<Symbol>)
    requires |trail| > 0 && trail[0] in visited && trail[0] != expected && IsTrail(checker, trail)
    requires forall i :: 0 <= i < |trail| - 1 ==> trail[i] !in seen
    requires Opened(checker, expected, seen, visited)
    ensures trail[|trail| - 1] != expected
  {
    if |trail| > 1 {
      var rest := trail[1..];
      assert trail[0 + 1] in NamedIn(checker, Bodies(checker, trail[0]));
      forall i | 0 <= i < |rest| - 1
        ensures rest[i + 1] in NamedIn(checker, Bodies(checker, rest[i])) && rest[i] !in seen
      {
        assert trail[i + 1 + 1] in NamedIn(checker, Bodies(checker, trail[i + 1]));
      }
      TrailStaysInside(checker, expected, seen, visited, rest);
    }
  }

  /**
   The search answers exactly whether the expected symbol can be reached through the tree and through
   declarations not in `seen`, cyclic declarations included. An expected symbol that is a broken alias
   matches nothing.
   */
  method ExpressionReferencesSymbol(checker: Checker, root: Node, expected: Symbol,
                                    seen: set<Symbol>) returns (found: bool)
    ensures found <==>
              checker.resolve(expected).Some? && References(checker, root, checker.resolve(expected).value, seen)
  {
    var target := checker.resolve(expected);
    if target.None? {
      return false;
    }
    var visited;
    found, visited := Visit(checker, root, target.value, seen);
    if !found {
      forall trail ensures !Leads(checker, root, target.value, seen, trail) {
        if Leads(checker, root, target.value, seen, trail) {
          TrailStaysInside(checker, target.value, seen, visited, trail);
        }
      }
    }
  }
}
