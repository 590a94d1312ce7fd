/** Which paths are inputs, which events on them matter, and how an event's path is named. */
module ObservedInputs {
  import opened Utf8
  import opened InotifyCodec

  /** An absolute path, normalized, in the file system's encoding. */
  type Path = Name

  const SEPARATOR: byte := 47

  datatype Config = Config(
    roots: seq<Path>,
    rootFileSuffixes: seq<(Path, seq<Name>)>,
    excluded: seq<Path>,
    guarded: seq<Path>,
    replaceableInputs: set<Path>,
    transientCoordination: set<Path>)

  // ----- Event masks as sets of bit positions

  type Mask = set<nat>

  const MODIFY := 1
  const ATTRIB := 2
  const CLOSE_WRITE := 3
  const MOVED_TO := 7
  const CREATE := 8
  const MOVE_SELF := 11
  const UNMOUNT := 13
  const OVERFLOW := 14
  const IGNORED := 15
  const ISDIR := 30

  predicate Bit(mask: nat, k: nat) {
    if k == 0 then mask % 2 == 1 else Bit(mask / 2, k - 1)
  }

  function Bits(mask: nat): Mask {
    set k: nat | 0 <= k < 32 && Bit(mask, k)
  }

  /** The mask with one bit. */
  function PowerOfTwo(k: nat): (n: nat)
    ensures n > 0
  {
    if k == 0 then 1 else 2 * PowerOfTwo(k - 1)
  }

  lemma {:induction false} NoBit(k: nat)
    ensures !Bit(0, k)
  {
    if k > 0 {
      NoBit(k - 1);
    }
  }

  lemma {:induction false} BitOfPower(k: nat, j: nat)
    ensures Bit(PowerOfTwo(k), j) <==> j == k
  {
    if k == 0 && j > 0 {
      NoBit(j - 1);
    } else if k > 0 && j > 0 {
      BitOfPower(k - 1, j - 1);
    }
  }

  lemma {:induction false} SingleBit(k: nat)
    requires k < 32
    ensures Bits(PowerOfTwo(k)) == {k}
  {
    forall j: nat ensures Bit(PowerOfTwo(k), j) <==> j == k {
      BitOfPower(k, j);
    }
  }

  predicate IsWrite(m: Mask) {
    MODIFY in m || CLOSE_WRITE in m
  }

  predicate IsArrival(m: Mask) {
    MOVED_TO in m || CREATE in m
  }

  // ----- Paths

  predicate Below(path: Path, root: Path) {
    path == root || root + [SEPARATOR] <= path
  }

  predicate BelowAny(path: Path, roots: seq<Path>) {
    exists i :: 0 <= i < |roots| && Below(path, roots[i])
  }

  predicate AboveAny(path: Path, roots: seq<Path>) {
    exists i :: 0 <= i < |roots| && Below(roots[i], path)
  }

  predicate StrictlyAboveAny(path: Path, roots: seq<Path>) {
    exists i :: 0 <= i < |roots| && path != roots[i] && Below(roots[i], path)
  }

  predicate Skip(c: Config, path: Path) {
    if BelowAny(path, c.guarded) || AboveAny(path, c.guarded) then false else BelowAny(path, c.excluded)
  }

  function FirstComponent(rest: Name): Name {
    if rest == [] || rest[0] == SEPARATOR then [] else [rest[0]] + FirstComponent(rest[1..])
  }

  predicate HasSuffix(name: Name, suffixes: seq<Name>) {
    exists i :: 0 <= i < |suffixes| && |name| > |suffixes[i]| && name[|name| - |suffixes[i]|..] == suffixes[i]
  }

  predicate MatchesRootFile(path: Path, entry: (Path, seq<Name>)) {
    path != entry.0 && Below(path, entry.0) && HasSuffix(FirstComponent(path[|entry.0| + 1..]), entry.1)
  }

  predicate MatchingRootFile(c: Config, path: Path) {
    exists i :: 0 <= i < |c.rootFileSuffixes| && MatchesRootFile(path, c.rootFileSuffixes[i])
  }

  predicate AboveRootFiles(c: Config, path: Path) {
    exists i :: 0 <= i < |c.rootFileSuffixes| && Below(c.rootFileSuffixes[i].0, path)
  }

  predicate Relevant(c: Config, path: Path) {
    && !Skip(c, path)
    && (|| BelowAny(path, c.roots) || AboveAny(path, c.roots)
        || BelowAny(path, c.guarded) || AboveAny(path, c.guarded)
        || MatchingRootFile(c, path) || AboveRootFiles(c, path))
  }

  predicate DeclaredInput(c: Config, path: Path) {
    || BelowAny(path, c.guarded)
    || ((BelowAny(path, c.roots) || MatchingRootFile(c, path)) && !BelowAny(path, c.excluded))
  }

  predicate OnlyStrictAncestor(c: Config, path: Path) {
    && (StrictlyAboveAny(path, c.roots) || StrictlyAboveAny(path, c.guarded) || AboveRootFiles(c, path))
    && !DeclaredInput(c, path)
  }

  predicate MetadataOnly(m: Mask) {
    m - {ISDIR} == {ATTRIB}
  }

  predicate Invalidates(c: Config, path: Path, m: Mask) {
    path !in c.transientCoordination && Relevant(c, path) && !(MetadataOnly(m) && OnlyStrictAncestor(c, path))
  }

  /** Replaceable inputs are required to be guarded ones. */
  ghost predicate ValidConfig(c: Config) {
    forall p :: p in c.replaceableInputs || p in c.transientCoordination ==> p in c.guarded
  }

  /** Every event on a declared input outside the coordination files invalidates. */
  lemma DeclaredInvalidates(c: Config, path: Path, m: Mask)
    requires DeclaredInput(c, path) && path !in c.transientCoordination
    ensures Invalidates(c, path, m)
  {
  }

  /** A metadata change on a directory that is only above inputs does not. */
  lemma AncestorMetadataIsIgnored(c: Config, path: Path, m: Mask)
    requires OnlyStrictAncestor(c, path) && MetadataOnly(m)
    ensures !Invalidates(c, path, m)
    ensures ValidConfig(c) ==> path !in c.replaceableInputs
  {
    GuardedIsDeclared(c, path);
  }

  lemma GuardedIsDeclared(c: Config, path: Path)
    ensures path in c.guarded ==> DeclaredInput(c, path)
  {
    if path in c.guarded {
      var i :| 0 <= i < |c.guarded| && c.guarded[i] == path;
      assert Below(path, c.guarded[i]);
    }
  }

  /** `os.path.join`. */
  function Join(base: Path, name: Name): Path {
    if name == [] then base
    else if name[0] == SEPARATOR then name
    else if base == [] || base[|base| - 1] == SEPARATOR then base + name
    else base + [SEPARATOR] + name
  }
}
