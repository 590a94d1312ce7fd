/** The validator of fully qualified branch refs, and the grammar of git-check-ref-format it stands for. */
module GitLocator {

  // ----- String operations

  /** `includes` for a two-character needle. */
  predicate HasPair(s: string, x: char, y: char) {
    exists i :: 0 <= i < |s| - 1 && s[i] == x && s[i + 1] == y
  }

  predicate EndsWith(s: string, suffix: string) {
    |suffix| <= |s| && s[|s| - |suffix|..] == suffix
  }

  predicate NoSlash(s: string) {
    forall i :: 0 <= i < |s| ==> s[i] != '/'
  }

  function IndexOfSlash(s: string): (k: nat)
    ensures k <= |s| && NoSlash(s[..k]) && (k < |s| ==> s[k] == '/')
  {
    if s == "" || s[0] == '/' then 0
    else
      var k := IndexOfSlash(s[1..]);
      assert s[..k + 1] == [s[0]] + s[1..][..k];
      k + 1
  }

  /** `split("/")`. */
  function Split(s: string): (parts: seq<string>)
    ensures |parts| > 0
    decreases |s|
  {
    var k := IndexOfSlash(s);
    if k == |s| then [s] else [s[..k]] + Split(s[k + 1..])
  }

  function Join(parts: seq<string>): string
    requires |parts| > 0
  {
    if |parts| == 1 then parts[0] else parts[0] + "/" + Join(parts[1..])
  }

  predicate Parts(parts: seq<string>) {
    |parts| > 0 && forall i :: 0 <= i < |parts| ==> NoSlash(parts[i])
  }

  lemma {:induction false} JoinSplit(s: string)
    ensures Parts(Split(s)) && Join(Split(s)) == s
    decreases |s|
  {
    var k := IndexOfSlash(s);
    if k < |s| {
      JoinSplit(s[k + 1..]);
      assert Split(s)[1..] == Split(s[k + 1..]);
      assert s == s[..k] + "/" + s[k + 1..];
    } else {
      assert s[..k] == s;
    }
  }

  lemma {:induction false} SplitFirst(a: string, b: string)
    requires NoSlash(a)
    ensures Split(a + "/" + b) == [a] + Split(b)
  {
    var s := a + "/" + b;
    assert s[|a|] == '/';
    assert forall i :: 0 <= i < |a| ==> s[i] == a[i];
    var k := IndexOfSlash(s);
    assert k >= |a|;
    assert forall i :: 0 <= i < k ==> s[..k][i] == s[i];
    assert k == |a|;
    assert s[..k] == a && s[k + 1..] == b;
  }

  lemma {:induction false} SplitJoin(parts: seq<string>)
    requires Parts(parts)
    ensures Split(Join(parts)) == parts
  {
    if |parts| == 1 {
      assert parts == [parts[0]];
      assert IndexOfSlash(parts[0]) == |parts[0]|;
    } else {
      SplitJoin(parts[1..]);
      SplitFirst(parts[0], Join(parts[1..]));
      assert parts == [parts[0]] + parts[1..];
    }
  }

  lemma EndsWithChar(s: string, c: char)
    ensures EndsWith(s, [c]) <==> s != "" && s[|s| - 1] == c
  {
    if s != "" {
      assert s[|s| - 1..] == [s[|s| - 1]];
    }
  }

  // ----- The validator

  predicate Forbidden(c: char) {
    c <= ' ' || c == '\U{7f}' || c == '~' || c == '^' || c == ':' || c == '?' || c == '*' || c == '[' || c == '\\'
  }

  predicate HasForbidden(s: string) {
    exists i :: 0 <= i < |s| && Forbidden(s[i])
  }

  predicate HasInvalidShape(ref: string) {
    HasPair(ref, '.', '.') || HasPair(ref, '/', '/') ||
      HasPair(ref, '@', '{') || EndsWith(ref, "/") || EndsWith(ref, ".")
  }

  predicate IsValidComponent(component: string) {
    !("." <= component) && !EndsWith(component, ".lock")
  }

  predicate ValidParts(parts: seq<string>) {
    forall i :: 0 <= i < |parts| ==> IsValidComponent(parts[i])
  }

  predicate IsValidTaskBranchRef(ref: string) {
    && "refs/heads/" <= ref && ref != "refs/heads/"
    && !HasInvalidShape(ref)
    && !HasForbidden(ref)
    && ValidParts(Split(ref))
  }

  // ----- The grammar

  /** One path component between slashes. */
  predicate WellFormedComponent(c: string) {
    && c != "" && NoSlash(c) && !HasForbidden(c)
    && !HasPair(c, '.', '.') && !HasPair(c, '@', '{')
    && IsValidComponent(c)
  }

  predicate WellFormedBranch(components: seq<string>) {
    && |components| > 0
    && (forall i :: 0 <= i < |components| ==> WellFormedComponent(components[i]))
    && !EndsWith(components[|components| - 1], ".")
  }

  function RefFor(components: seq<string>): string
    requires |components| > 0
  {
    "refs/heads/" + Join(components)
  }

  // ----- What a joined string contains, in terms of its parts

  lemma PairAcrossSlash(a: string, b: string, x: char, y: char)
    requires x != '/' && y != '/'
    ensures HasPair(a + "/" + b, x, y) <==> HasPair(a, x, y) || HasPair(b, x, y)
  {
    var s := a + "/" + b;
    if HasPair(s, x, y) {
      var i :| 0 <= i < |s| - 1 && s[i] == x && s[i + 1] == y;
      if i + 1 < |a| {
        assert a[i] == x && a[i + 1] == y;
      } else {
        var j := i - |a| - 1;
        assert b[j] == x && b[j + 1] == y;
      }
    }
    if HasPair(a, x, y) {
      var i :| 0 <= i < |a| - 1 && a[i] == x && a[i + 1] == y;
      assert s[i] == x && s[i + 1] == y;
    }
    if HasPair(b, x, y) {
      var i :| 0 <= i < |b| - 1 && b[i] == x && b[i + 1] == y;
      var j := |a| + 1 + i;
      assert s[j] == x && s[j + 1] == y;
    }
  }

  lemma SlashPairAcrossSlash(a: string, b: string)
    requires NoSlash(a)
    ensures HasPair(a + "/" + b, '/', '/') <==> HasPair(b, '/', '/') || "/" <= b
  {
    var s := a + "/" + b;
    if HasPair(s, '/', '/') {
      var i :| 0 <= i < |s| - 1 && s[i] == '/' && s[i + 1] == '/';
      if i > |a| {
        var j := i - |a| - 1;
        assert b[j] == '/' && b[j + 1] == '/';
      } else {
        assert i == |a| && b[0] == '/';
      }
    }
    if HasPair(b, '/', '/') {
      var i :| 0 <= i < |b| - 1 && b[i] == '/' && b[i + 1] == '/';
      var j := |a| + 1 + i;
      assert s[j] == '/' && s[j + 1] == '/';
    }
    if "/" <= b {
      assert s[|a|] == '/' && s[|a| + 1] == '/';
    }
  }

  lemma ForbiddenAcrossSlash(a: string, b: string)
    ensures HasForbidden(a + "/" + b) <==> HasForbidden(a) || HasForbidden(b)
  {
    var s := a + "/" + b;
    if HasForbidden(a) {
      var i :| 0 <= i < |a| && Forbidden(a[i]);
      assert s[i] == a[i];
    }
    if HasForbidden(b) {
      var i :| 0 <= i < |b| && Forbidden(b[i]);
      assert s[|a| + 1 + i] == b[i];
    }
    if HasForbidden(s) {
      var i :| 0 <= i < |s| && Forbidden(s[i]);
      assert s[i] == if i < |a| then a[i] else if i == |a| then '/' else b[i - |a| - 1];
    }
  }

  /** Everything the whole-string checks look for, stated part by part. */
  predicate CleanParts(parts: seq<string>) {
    forall i :: 0 <= i < |parts| ==>
      !HasForbidden(parts[i]) && !HasPair(parts[i], '.', '.') && !HasPair(parts[i], '@', '{')
  }

  predicate CleanWhole(s: string) {
    !HasForbidden(s) && !HasPair(s, '.', '.') && !HasPair(s, '@', '{')
  }

  lemma {:induction false} CleanJoin(parts: seq<string>)
    requires Parts(parts)
    ensures CleanWhole(Join(parts)) <==> CleanParts(parts)
  {
    if |parts| > 1 {
      var rest := parts[1..];
      CleanJoin(rest);
      ForbiddenAcrossSlash(parts[0], Join(rest));
      PairAcrossSlash(parts[0], Join(rest), '.', '.');
      PairAcrossSlash(parts[0], Join(rest), '@', '{');
      assert CleanParts(parts) <==> CleanWhole(parts[0]) && CleanParts(rest) by {
        assert forall i :: 0 < i < |parts| ==> parts[i] == rest[i - 1];
      }
    }
  }

  predicate FullParts(parts: seq<string>) {
    forall i :: 0 <= i < |parts| ==> parts[i] != ""
  }

  lemma {:induction false} JoinStart(parts: seq<string>)
    requires Parts(parts)
    ensures "/" <= Join(parts) <==> parts[0] == "" && |parts| > 1
  {
    var s, first := Join(parts), parts[0];
    assert NoSlash(first);
    if first != "" {
      assert s[0] == first[0] && first[0] != '/';
    } else if |parts| > 1 {
      assert s[0] == '/';
    }
  }

  /** No empty component after the first: neither two slashes in a row nor one at the end. */
  lemma {:induction false} SlashesJoin(parts: seq<string>)
    requires Parts(parts) && parts[0] != ""
    ensures !HasPair(Join(parts), '/', '/') && !EndsWith(Join(parts), "/") <==> FullParts(parts)
  {
    EndsWithChar(Join(parts), '/');
    if |parts| > 1 {
      var rest := parts[1..];
      var s, tail := Join(parts), Join(rest);
      EndsWithChar(tail, '/');
      JoinStart(rest);
      SlashPairAcrossSlash(parts[0], tail);
      assert s[|parts[0]|] == '/';
      if rest[0] == "" {
        assert parts[1] == "";
        if |rest| == 1 {
          assert s[|s| - 1] == '/';
        }
      } else {
        SlashesJoin(rest);
        JoinNotEmpty(rest);
        assert s[|s| - 1] == tail[|tail| - 1];
        assert FullParts(parts) <==> FullParts(rest) by {
          assert forall i :: 0 < i < |parts| ==> parts[i] == rest[i - 1];
        }
      }
    }
  }

  lemma {:induction false} JoinNotEmpty(parts: seq<string>)
    requires |parts| > 0 && parts[0] != ""
    ensures Join(parts) != ""
  {
  }

  lemma {:induction false} JoinEnd(parts: seq<string>)
    requires Parts(parts) && FullParts(parts)
    ensures EndsWith(Join(parts), ".") <==> EndsWith(parts[|parts| - 1], ".")
  {
    if |parts| > 1 {
      var rest := parts[1..];
      var s, tail := Join(parts), Join(rest);
      JoinEnd(rest);
      JoinNotEmpty(rest);
      assert s[|s| - 1] == tail[|tail| - 1];
      assert rest[|rest| - 1] == parts[|parts| - 1];
      var last := rest[|rest| - 1];
      assert EndsWith(s, ".") <==> s[|s| - 1] == '.';
      assert EndsWith(tail, ".") <==> tail[|tail| - 1] == '.';
    }
  }

  // ----- The validator accepts exactly the grammar

  function Qualified(components: seq<string>): seq<string> {
    ["refs", "heads"] + components
  }

  lemma QualifiedJoin(components: seq<string>)
    requires |components| > 0
    ensures Join(Qualified(components)) == RefFor(components)
  {
    var all := Qualified(components);
    assert all[1..] == ["heads"] + components;
    assert all[1..][1..] == components;
    assert Join(all) == "refs" + "/" + ("heads" + "/" + Join(components));
  }

  lemma QualifiedAt(components: seq<string>)
    ensures var all := Qualified(components);
            && |all| == |components| + 2 && all[0] == "refs" && all[1] == "heads"
            && (forall i :: 0 <= i < |components| ==> components[i] == all[i + 2])
            && forall i :: 2 <= i < |all| ==> all[i] == components[i - 2]
  {
  }

  lemma QualifiedParts(components: seq<string>)
    requires Parts(components)
    ensures Parts(Qualified(components))
  {
    QualifiedAt(components);
  }

  lemma QualifiedClean(components: seq<string>)
    ensures CleanParts(Qualified(components)) <==> CleanParts(components)
  {
    QualifiedAt(components);
    assert CleanWhole("refs") && CleanWhole("heads");
  }

  lemma QualifiedFull(components: seq<string>)
    ensures FullParts(Qualified(components)) <==> FullParts(components)
  {
    QualifiedAt(components);
  }

  lemma PrefixIsValid()
    ensures IsValidComponent("refs") && IsValidComponent("heads")
  {
    assert "refs"[0] == 'r' && "heads"[0] == 'h' && "heads"[0..][0] == 'h';
    assert "."[0] == '.' && ".lock"[0] == '.';
  }

  lemma QualifiedValid(components: seq<string>)
    ensures ValidParts(Qualified(components)) <==> ValidParts(components)
  {
    PrefixIsValid();
    QualifiedAt(components);
  }

  /** The checks on a ref with these components are the grammar's conditions on them. */
  lemma ValidatorMatchesGrammar(components: seq<string>)
    requires Parts(components)
    ensures IsValidTaskBranchRef(RefFor(components)) <==> WellFormedBranch(components)
  {
    var ref, all := RefFor(components), Qualified(components);
    QualifiedJoin(components);
    QualifiedAt(components);
    QualifiedParts(components);
    QualifiedClean(components);
    QualifiedFull(components);
    QualifiedValid(components);
    SplitJoin(all);
    assert ValidParts(Split(ref)) <==> ValidParts(components);
    CleanJoin(all);
    SlashesJoin(all);
    if FullParts(components) {
      JoinEnd(all);
      assert all[|all| - 1] == components[|components| - 1];
      JoinNotEmpty(components);
    }
  }

  lemma QualifiedSplit(ref: string)
    requires "refs/heads/" <= ref
    ensures Parts(Split(ref[11..])) && RefFor(Split(ref[11..])) == ref
  {
    JoinSplit(ref[11..]);
    assert ref == ref[..11] + ref[11..];
  }

  /**
   A ref is accepted if and only if it is `refs/heads/` followed by a slash-separated list of
   well-formed components, the last of which does not end in a dot.
   */
  lemma RefGrammar(ref: string)
    ensures IsValidTaskBranchRef(ref) <==>
            exists components :: WellFormedBranch(components) && ref == RefFor(components)
  {
    if IsValidTaskBranchRef(ref) {
      QualifiedSplit(ref);
      ValidatorMatchesGrammar(Split(ref[11..]));
    }
    forall components | WellFormedBranch(components) && ref == RefFor(components)
      ensures IsValidTaskBranchRef(ref)
    {
      ValidatorMatchesGrammar(components);
    }
  }

  lemma {:induction false} JoinSnoc(components: seq<string>, component: string)
    requires |components| > 0
    ensures Join(components + [component]) == Join(components) + "/" + component
  {
    if |components| > 1 {
      assert (components + [component])[1..] == components[1..] + [component];
      JoinSnoc(components[1..], component);
    } else {
      assert (components + [component])[1..] == [component];
    }
  }

  lemma RefForSnoc(components: seq<string>, component: string)
    requires Parts(components) && NoSlash(component)
    ensures Parts(components + [component])
    ensures RefFor(components + [component]) == RefFor(components) + "/" + component
  {
    JoinSnoc(components, component);
    assert "refs/heads/" + (Join(components) + "/" + component) == ("refs/heads/" + Join(components)) + "/" + component;
  }

  lemma WellFormedSnoc(components: seq<string>, component: string)
    requires WellFormedBranch(components)
    ensures WellFormedBranch(components + [component]) <==> WellFormedComponent(component) && !EndsWith(component, ".")
  {
    var longer := components + [component];
    assert longer[|components|] == component;
    assert forall i :: 0 <= i < |components| ==> longer[i] == components[i];
  }

  /** An accepted ref stays accepted under another component exactly when that component is well formed and does not
   end in a dot. */
  lemma AppendComponent(ref: string, component: string)
    requires IsValidTaskBranchRef(ref) && NoSlash(component)
    ensures IsValidTaskBranchRef(ref + "/" + component) <==>
            WellFormedComponent(component) && !EndsWith(component, ".")
  {
    QualifiedSplit(ref);
    var components := Split(ref[11..]);
    ValidatorMatchesGrammar(components);
    RefForSnoc(components, component);
    ValidatorMatchesGrammar(components + [component]);
    WellFormedSnoc(components, component);
  }
}
