/**
 The observer's book of watch descriptors: which paths each descriptor stands for, which descriptor is
 active for a replaceable path, and for which paths a descriptor has become obsolete.
 */
module WatchBook {
  type Wd = int

  /** What happens when a replaceable file is to be watched again. */
  datatype Answer = Absent | Failed | Installed(wd: Wd)

  type Index<P> = map<Wd, set<P>>

  /** `kernelFault` records that the kernel answered with a descriptor already obsolete for the path asked about. */
  datatype Book<P> = Book(
    watches: Index<P>,
    watchedPaths: set<P>,
    everWatched: set<P>,
    active: map<P, Wd>,
    obsolete: Index<P>,
    kernelFault: bool)

  function At<P>(m: Index<P>, wd: Wd): set<P> {
    if wd in m then m[wd] else {}
  }

  function AddTo<P(==)>(m: Index<P>, wd: Wd, path: P): Index<P> {
    m[wd := At(m, wd) + {path}]
  }

  /** Removes a path from a descriptor, and the descriptor with its last path. */
  function RemoveFrom<P(==)>(m: Index<P>, wd: Wd, path: P): Index<P> {
    var left := At(m, wd) - {path};
    if left == {} then m - {wd} else m[wd := left]
  }

  lemma AddToAt<P>(m: Index<P>, wd: Wd, path: P, w: Wd)
    ensures At(AddTo(m, wd, path), w) == if w == wd then At(m, wd) + {path} else At(m, w)
  {
  }

  lemma RemoveFromAt<P>(m: Index<P>, wd: Wd, path: P, w: Wd)
    ensures At(RemoveFrom(m, wd, path), w) == if w == wd then At(m, wd) - {path} else At(m, w)
  {
  }

  // ----- Operations

  /** A first watch on a path. */
  function Watched<P(==)>(b: Book<P>, swappable: set<P>, path: P, wd: Wd): Book<P> {
    Book(AddTo(b.watches, wd, path), b.watchedPaths + {path}, b.everWatched + {path},
         if path in swappable then b.active[path := wd] else b.active,
         b.obsolete, b.kernelFault || path in At(b.obsolete, wd))
  }

  /** A new watch on a replaceable path: the descriptor it had before becomes obsolete for it. */
  function Adopted<P(==)>(b: Book<P>, path: P, wd: Wd): Book<P> {
    var fault := b.kernelFault || path in At(b.obsolete, wd);
    if path in b.active && b.active[path] == wd then b.(kernelFault := fault)
    else
      Book(AddTo(b.watches, wd, path), b.watchedPaths + {path}, b.everWatched + {path}, b.active[path := wd],
           if path in b.active then AddTo(b.obsolete, b.active[path], path) else b.obsolete, fault)
  }

  function Forgotten<P(==)>(b: Book<P>, path: P): Book<P> {
    b.(watchedPaths := b.watchedPaths - {path}, active := b.active - {path})
  }

  function ObsoleteGone<P(==)>(b: Book<P>, wd: Wd, path: P): Book<P> {
    b.(obsolete := RemoveFrom(b.obsolete, wd, path))
  }

  // ----- What they keep

  /**
   Every watched replaceable path has an active descriptor that is live, holds the path and is not
   obsolete for it; an obsolete descriptor is still live.
   */
  ghost predicate Tracked<P>(b: Book<P>, swappable: set<P>) {
    && (forall p :: p in swappable && p in b.watchedPaths ==> p in b.active)
    && (forall p :: p in b.active ==> p in swappable && p in b.watchedPaths)
    && (forall p :: p in b.active ==> p in At(b.watches, b.active[p]) && p !in At(b.obsolete, b.active[p]))
    && (forall wd :: At(b.obsolete, wd) <= At(b.watches, wd))
  }

  ghost predicate Good<P>(b: Book<P>, swappable: set<P>) {
    b.kernelFault || Tracked(b, swappable)
  }

  lemma WatchedKeepsGood<P>(b: Book<P>, swappable: set<P>, path: P, wd: Wd)
    requires Good(b, swappable) && path !in b.watchedPaths
    ensures Good(Watched(b, swappable, path, wd), swappable)
  {
    var t := Watched(b, swappable, path, wd);
    if !t.kernelFault {
      forall w ensures At(t.watches, w) == if w == wd then At(b.watches, wd) + {path} else At(b.watches, w) {
        AddToAt(b.watches, wd, path, w);
      }
    }
  }

  lemma AdoptedIndexes<P>(b: Book<P>, path: P, wd: Wd, w: Wd)
    requires !(path in b.active && b.active[path] == wd)
    ensures var t := Adopted(b, path, wd);
            && At(t.watches, w) == (if w == wd then At(b.watches, wd) + {path} else At(b.watches, w))
            && At(t.obsolete, w) ==
               if path in b.active && w == b.active[path] then At(b.obsolete, w) + {path} else At(b.obsolete, w)
  {
    AddToAt(b.watches, wd, path, w);
    if path in b.active {
      AddToAt(b.obsolete, b.active[path], path, w);
    }
  }

  lemma AdoptedIsTracked<P>(b: Book<P>, swappable: set<P>, path: P, wd: Wd)
    requires Tracked(b, swappable) && path in swappable && path !in At(b.obsolete, wd)
    requires !(path in b.active && b.active[path] == wd)
    ensures Tracked(Adopted(b, path, wd), swappable)
  {
    var t := Adopted(b, path, wd);
    forall w ensures At(t.obsolete, w) <= At(t.watches, w) {
      AdoptedIndexes(b, path, wd, w);
    }
    forall p | p in t.active ensures p in At(t.watches, t.active[p]) && p !in At(t.obsolete, t.active[p]) {
      AdoptedIndexes(b, path, wd, t.active[p]);
    }
  }

  lemma AdoptedKeepsGood<P>(b: Book<P>, swappable: set<P>, path: P, wd: Wd)
    requires Good(b, swappable) && path in swappable
    ensures Good(Adopted(b, path, wd), swappable)
  {
    if !Adopted(b, path, wd).kernelFault && !(path in b.active && b.active[path] == wd) {
      AdoptedIsTracked(b, swappable, path, wd);
    }
  }

  /**
   Exactly when adopting a descriptor leaves the path watched for real: the kernel's answer must not be
   a descriptor that is obsolete for this path.
   */
  lemma AdoptedIsHeardIff<P>(b: Book<P>, swappable: set<P>, path: P, wd: Wd)
    requires Tracked(b, swappable) && path in swappable
    ensures var t := Adopted(b, path, wd);
            t.active[path] == wd && path in At(t.watches, wd) &&
              (path !in At(t.obsolete, wd) <==> path !in At(b.obsolete, wd))
  {
    AddToAt(b.watches, wd, path, wd);
    if path in b.active {
      AddToAt(b.obsolete, b.active[path], path, wd);
    }
  }

  // ----- A descriptor whose paths are being visited after its removal

  /** The book as if the paths still to be visited were under the removed descriptor. */
  ghost function Restored<P>(b: Book<P>, wd: Wd, todo: set<P>): Book<P> {
    if todo == {} then b else b.(watches := b.watches[wd := At(b.watches, wd) + todo])
  }

  lemma RestoredAt<P>(b: Book<P>, wd: Wd, todo: set<P>, w: Wd)
    ensures At(Restored(b, wd, todo).watches, w) == if w == wd then At(b.watches, wd) + todo else At(b.watches, w)
  {
  }

  lemma ObsoleteGoneKeepsGood<P>(b: Book<P>, swappable: set<P>, wd: Wd, path: P, todo: set<P>)
    requires path in todo && Good(Restored(b, wd, todo), swappable) && path in At(b.obsolete, wd)
    ensures Good(Restored(ObsoleteGone(b, wd, path), wd, todo - {path}), swappable)
  {
    var t := ObsoleteGone(b, wd, path);
    forall w
      ensures At(Restored(b, wd, todo).watches, w) == if w == wd then At(b.watches, wd) + todo else At(b.watches, w)
      ensures At(Restored(t, wd, todo - {path}).watches, w) ==
              if w == wd then At(b.watches, wd) + (todo - {path}) else At(b.watches, w)
      ensures At(t.obsolete, w) == if w == wd then At(b.obsolete, wd) - {path} else At(b.obsolete, w)
    {
      RestoredAt(b, wd, todo, w);
      RestoredAt(t, wd, todo - {path}, w);
      RemoveFromAt(b.obsolete, wd, path, w);
    }
  }

  /** A path that is neither obsolete for the descriptor nor active under it can be dropped from it. */
  lemma DroppedKeepsGood<P>(b: Book<P>, swappable: set<P>, wd: Wd, path: P, todo: set<P>)
    requires path in todo && Good(Restored(b, wd, todo), swappable)
    requires path !in At(b.obsolete, wd) && !(path in b.active && b.active[path] == wd)
    ensures Good(Restored(b, wd, todo - {path}), swappable)
  {
    forall w
      ensures At(Restored(b, wd, todo).watches, w) == if w == wd then At(b.watches, wd) + todo else At(b.watches, w)
      ensures At(Restored(b, wd, todo - {path}).watches, w) ==
              if w == wd then At(b.watches, wd) + (todo - {path}) else At(b.watches, w)
    {
      RestoredAt(b, wd, todo, w);
      RestoredAt(b, wd, todo - {path}, w);
    }
  }

  lemma ForgottenKeepsGood<P>(b: Book<P>, swappable: set<P>, path: P)
    requires Good(b, swappable)
    ensures Good(Forgotten(b, path), swappable)
  {
  }

  /** Books that differ only in how their watches are stored. */
  ghost predicate Alike<P>(x: Book<P>, y: Book<P>) {
    && x.kernelFault == y.kernelFault
    && x.watchedPaths == y.watchedPaths && x.active == y.active && x.obsolete == y.obsolete
    && forall w :: At(x.watches, w) == At(y.watches, w)
  }

  lemma GoodByLookup<P>(x: Book<P>, y: Book<P>, swappable: set<P>)
    requires Good(x, swappable) && Alike(x, y)
    ensures Good(y, swappable)
  {
  }

  lemma AdoptedRestoredAt<P>(b: Book<P>, wd: Wd, path: P, next: Wd, todo: set<P>, w: Wd)
    ensures At(Adopted(Restored(b, wd, todo), path, next).watches, w) ==
            At(Restored(Adopted(b, path, next), wd, todo).watches, w)
  {
    RestoredAt(b, wd, todo, w);
    RestoredAt(Adopted(b, path, next), wd, todo, w);
    AddToAt(b.watches, next, path, w);
    AddToAt(Restored(b, wd, todo).watches, next, path, w);
  }

  /** Adopting commutes with putting the unvisited paths back. */
  lemma AdoptedRestoredAlike<P>(b: Book<P>, wd: Wd, path: P, next: Wd, todo: set<P>)
    ensures Alike(Adopted(Restored(b, wd, todo), path, next), Restored(Adopted(b, path, next), wd, todo))
  {
    var x, y := Adopted(Restored(b, wd, todo), path, next), Restored(Adopted(b, path, next), wd, todo);
    forall w ensures At(x.watches, w) == At(y.watches, w) {
      AdoptedRestoredAt(b, wd, path, next, todo, w);
    }
  }

  lemma AdoptedRestored<P>(b: Book<P>, swappable: set<P>, wd: Wd, path: P, next: Wd, todo: set<P>)
    requires Good(Restored(b, wd, todo), swappable) && path in swappable
    ensures Good(Restored(Adopted(b, path, next), wd, todo), swappable)
  {
    AdoptedKeepsGood(Restored(b, wd, todo), swappable, path, next);
    AdoptedRestoredAlike(b, wd, path, next, todo);
    GoodByLookup(Adopted(Restored(b, wd, todo), path, next), Restored(Adopted(b, path, next), wd, todo), swappable);
  }

  function Reinstalling<P(==)>(b: Book<P>, path: P, answer: Answer): Book<P> {
    if answer.Installed? then Adopted(b, path, answer.wd) else b
  }

  /** The book after visiting one path of a removed descriptor. */
  function AfterRemoval<P(==)>(b: Book<P>, swappable: set<P>, wd: Wd, path: P, answer: Answer): Book<P> {
    if path in At(b.obsolete, wd) then ObsoleteGone(b, wd, path)
    else if path in swappable && path in b.active && b.active[path] == wd
      then Reinstalling(Forgotten(b, path), path, answer)
    else b
  }

  lemma ReinstallingKeepsGood<P>(b: Book<P>, swappable: set<P>, wd: Wd, path: P, answer: Answer, todo: set<P>)
    requires path in todo && Good(Restored(b, wd, todo), swappable) && path !in At(b.obsolete, wd) && path in swappable
    ensures Good(Restored(Reinstalling(Forgotten(b, path), path, answer), wd, todo - {path}), swappable)
  {
    ForgottenKeepsGood(Restored(b, wd, todo), swappable, path);
    assert Forgotten(Restored(b, wd, todo), path) == Restored(Forgotten(b, path), wd, todo);
    DroppedKeepsGood(Forgotten(b, path), swappable, wd, path, todo);
    if answer.Installed? {
      AdoptedRestored(Forgotten(b, path), swappable, wd, path, answer.wd, todo - {path});
    }
  }

  /** Visiting the paths of a removed descriptor keeps the book good for all that have been visited. */
  lemma AfterRemovalKeepsGood<P>(b: Book<P>, swappable: set<P>, wd: Wd, path: P, answer: Answer, todo: set<P>)
    requires path in todo && Good(Restored(b, wd, todo), swappable)
    ensures Good(Restored(AfterRemoval(b, swappable, wd, path, answer), wd, todo - {path}), swappable)
  {
    if path in At(b.obsolete, wd) {
      ObsoleteGoneKeepsGood(b, swappable, wd, path, todo);
    } else if path in swappable && path in b.active && b.active[path] == wd {
      ReinstallingKeepsGood(b, swappable, wd, path, answer, todo);
    } else if !b.kernelFault {
      DroppedKeepsGood(b, swappable, wd, path, todo);
    }
  }
}
