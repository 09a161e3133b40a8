/** The handles that clients hold, and what acquire, release, discovery and clean-up do to them. */
module FreeListClients {
  import opened FreeList
  import opened FreeListPass

  /** The references on c that are neither its owner's, nor a child's, nor a pin. */
  function Clients<C>(w: World<C>, c: C): int
    requires c in w.t.items && c in w.refs
  {
    w.refs[c] - Min(w.t, c) - Pins(w.t, w.held, c)
  }

  function One<C(==)>(x: C, c: C): int {
    if x == c then 1 else 0
  }

  lemma {:induction false} AcquireClients<C>(w: World<C>, c: C, x: C)
    requires Sound(w) && c in w.t.live && x in w.t.live
    ensures Clients(Acquire(w, c), x) == Clients(w, x) + One(x, c)
    decreases w.t.depth[c]
  {
    assert Right(w.t, w.refs, w.held, c);
    if w.refs[c] == Min(w.t, c) && c in w.t.parent {
      var w1, p := Unlist(w, c), w.t.parent[c];
      assert ChildRight(w.t, c);
      UnlistKeeps(w, c);
      AcquireKeeps(w1, p);
      AcquireClients(w1, p, x);
      var w2 := Acquire(w1, p);
      assert Same(w1, w2, c);
      PinsWith(w.t, w2.held, c, x);
    }
  }

  /** Writing c's reference and its pin off, before the parent is let go. */
  function Unpinned<C(==)>(w: World<C>, c: C): World<C>
    requires c in w.t.items && c in w.refs
  {
    TryToAdd(w.(refs := w.refs[c := w.refs[c] - 1], held := w.held - {c}), c)
  }

  lemma UnpinnedClients<C>(w: World<C>, c: C, x: C)
    requires Sound(w) && c in w.t.parent && c in w.t.live && c in w.held && x in w.t.live
    ensures w.t.parent[c] in w.t.live
    ensures Clients(Unpinned(w, c), x) == Clients(w, x) - One(x, c) + One(x, w.t.parent[c])
  {
    assert ChildRight(w.t, c);
    assert w.held - {c} + {c} == w.held;
    PinsWith(w.t, w.held - {c}, c, x);
  }

  lemma ReleasePlain<C>(w: World<C>, c: C, x: C)
    requires Sound(w) && c in w.t.live && x in w.t.live && (w.refs[c] - 1 != Min(w.t, c) || c !in w.t.parent)
    ensures Clients(Release(w, c), x) == Clients(w, x) - One(x, c)
  {
  }

  lemma {:induction false} ReleaseClients<C>(w: World<C>, c: C, x: C)
    requires Sound(w) && c in w.t.live && Clients(w, c) > 0 && x in w.t.live
    ensures Clients(Release(w, c), x) == Clients(w, x) - One(x, c)
    decreases w.t.depth[c]
  {
    if w.refs[c] - 1 == Min(w.t, c) && c in w.t.parent {
      ReleasePinned(w, c);
      assert ChildRight(w.t, c);
      UnpinnedClients(w, c, x);
      ReleaseClients(Unpinned(w, c), w.t.parent[c], x);
    } else {
      ReleasePlain(w, c, x);
    }
  }

  /** What ReleaseKeeps proves on its way about a context that has a pin to give up. */
  lemma ReleasePinned<C>(w: World<C>, c: C)
    requires Sound(w) && c in w.t.parent && c in w.t.live && Clients(w, c) > 0 && w.refs[c] - 1 == Min(w.t, c)
    ensures var w2 := Unpinned(w, c);
            c in w.held && w.t.parent[c] in w.t.live && Sound(w2) && Release(w, c) == Release(w2, w.t.parent[c])
            && Clients(w2, w.t.parent[c]) > 0
  {
    assert Right(w.t, w.refs, w.held, c);
    var w2 := Unpinned(w, c);
    assert ChildRight(w.t, c);
    PinRemoved(w.t, w.refs, w.held, c);
    ReleaseIdle(w, c);
    ReleaseKeeps(w2, w.t.parent[c]);
    ReleaseStep(w, c);
  }

  /** A new child pins nobody. */
  lemma PinsGrown<C>(t: Tree<C>, held: set<C>, p: C, k: C, kind: Kind, x: C)
    requires Shape(t) && p in t.live && k !in t.live && x in t.live && held <= t.live
    ensures x in Grown(t, p, k, kind).items && Pins(Grown(t, p, k, kind), held, x) == Pins(t, held, x)
    ensures Min(Grown(t, p, k, kind), x) == Min(t, x) + One(p, x)
  {
    assert k !in t.items[p];
    assert Pinning(Grown(t, p, k, kind), held, x) == Pinning(t, held, x);
  }

  lemma DiscoverClients<C>(w: World<C>, p: C, k: C, kind: Kind, x: C)
    requires Sound(w) && p in w.t.live && k !in w.t.live && (x in w.t.live || x == k)
    requires w.refs[p] > Min(w.t, p)
    ensures Clients(Discover(w, p, k, kind), x) == if x == k then 0 else Clients(w, x)
  {
    hide Acquire, Right;
    AcquireIs(w, p);
    if x != k {
      PinsGrown(w.t, w.held, p, k, kind, x);
    }
  }

  lemma ReclaimClients<C>(w: World<C>, c: C, x: C)
    requires Sound(w) && c in w.t.parent && c in w.t.live && w.t.items[c] == {} && w.refs[c] == Min(w.t, c)
    requires x in w.t.live && x != c
    ensures x in Reclaim(w, c).t.live && x in Reclaim(w, c).refs && x in Reclaim(w, c).t.items
    ensures Clients(Reclaim(w, c), x) == Clients(w, x)
  {
    assert Right(w.t, w.refs, w.held, c);
    assert ChildRight(w.t, c);
    ReclaimIs(w, c);
    assert Pinning(Cut(w.t, c), w.held, x) == Pinning(w.t, w.held, x);
    assert x == w.t.parent[c] ==> |w.t.items[x] - {c}| == |w.t.items[x]| - 1;
  }

  lemma DeletedClients<C>(w: World<C>, c: C, x: C)
    requires Sound(w) && c in w.t.live && c !in w.t.parent && w.t.items[c] == {}
    requires x in w.t.live && x != c
    ensures Clients(Deleted(w, c), x) == Clients(w, x)
  {
    assert Right(w.t, w.refs, w.held, c);
    assert w.held - {c} == w.held;
  }

  lemma SameClients<C>(w: World<C>, w': World<C>, x: C)
    requires x in w.t.items && x in w.refs && w'.t == w.t && w'.refs == w.refs && w'.held == w.held
    ensures Clients(w', x) == Clients(w, x)
  {
  }

  lemma TurnClients<C>(s: Pass<C>, c: C, fails: bool, x: C)
    requires PassInv(s) && Passable(s) && c in s.todo && x in s.w.t.live && x in Turn(s, c, fails).w.t.live
    ensures PassInv(Turn(s, c, fails))
    ensures Clients(Turn(s, c, fails).w, x) == Clients(s.w, x)
  {
    TurnedIs(s, c, fails);
    SameClients(s.w, Dropped(s, c).w, x);
    SameClients(s.w, Rejected(s, c).w, x);
    if s.w.t.items[c] == {} {
      if c in s.w.t.parent {
        ReclaimIs(s.w, c);
        if x != c {
          ReclaimClients(s.w, c, x);
        }
      } else if x != c {
        DeletedClients(s.w, c, x);
      }
    }
  }

  /** The pass leaves every client's handles as they were. */
  lemma {:induction false} LoopClients<C>(s: Pass<C>, order: seq<(C, bool)>, quota: int, x: C)
    requires PassInv(s) && Passable(s) && Enumerates(order, s.todo) && x in s.w.t.live && x in Loop(s, order, quota).w.t.live
    ensures Clients(Loop(s, order, quota).w, x) == Clients(s.w, x)
    decreases |order|
  {
    if order != [] && !(quota > 0 && s.ret >= quota) {
      TurnedIs(s, order[0].0, order[0].1);
      TurnClients(s, order[0].0, order[0].1, x);
      LoopClients(Turn(s, order[0].0, order[0].1), order[1..], quota, x);
    }
  }

  lemma CleanUpClients<C>(w: World<C>, cfg: Settings, force: bool, order: seq<(C, bool)>, x: C)
    requires Inv(w) && Formed(w) && Enumerates(order, w.free)
    requires x in w.t.live && x in CleanUp(w, cfg, force, order).0.t.live
    ensures Clients(CleanUp(w, cfg, force, order).0, x) == Clients(w, x)
  {
    if !Declines(cfg, force, |w.free|) {
      var s := Pass(w.(free := {}), w.free, {}, 0);
      PassStarts(w);
      LoopClients(s, order, cfg.maxAtOnce, x);
      SameClients(w, s.w, x);
      SameClients(Loop(s, order, cfg.maxAtOnce).w, CleanUp(w, cfg, force, order).0, x);
    }
  }

  // ---------------------------------------------------------------------------------------
  // The list is complete
  // ---------------------------------------------------------------------------------------

  /** An idle context that could be reclaimed and is not on the list. */
  ghost predicate Forgotten<C>(w: World<C>, c: C)
    requires c in w.t.items && c in w.refs
  {
    w.refs[c] == Min(w.t, c) && c !in w.flag && !Unreclaimable(w.t, c)
  }

  lemma {:induction false} AcquireForgets<C>(w: World<C>, c: C, x: C)
    requires Sound(w) && c in w.t.live && x in w.t.live
    ensures Forgotten(Acquire(w, c), x) ==> Forgotten(w, x)
    decreases w.t.depth[c]
  {
    AcquireKeeps(w, c);
    assert Right(w.t, w.refs, w.held, c);
    if w.refs[c] == Min(w.t, c) && c in w.t.parent {
      assert ChildRight(w.t, c);
      UnlistKeeps(w, c);
      AcquireForgets(Unlist(w, c), w.t.parent[c], x);
    }
  }

  lemma {:induction false} ReleaseForgets<C>(w: World<C>, c: C, x: C)
    requires Sound(w) && c in w.t.live && Clients(w, c) > 0 && x in w.t.live
    ensures Forgotten(Release(w, c), x) ==> Forgotten(w, x)
    decreases w.t.depth[c]
  {
    if w.refs[c] - 1 == Min(w.t, c) && c in w.t.parent {
      ReleasePinned(w, c);
      assert ChildRight(w.t, c);
      ReleaseForgets(Unpinned(w, c), w.t.parent[c], x);
    }
  }

  lemma DiscoverForgets<C>(w: World<C>, p: C, k: C, kind: Kind, x: C)
    requires Sound(w) && p in w.t.live && k !in w.t.live && (x in w.t.live || x == k) && w.refs[p] > Min(w.t, p)
    ensures Forgotten(Discover(w, p, k, kind), x) ==> x != k && Forgotten(w, x)
  {
    hide Acquire, Counted, Idle;
    AcquireIs(w, p);
    assert k !in w.t.items[p];
  }

  lemma ReclaimForgets<C>(w: World<C>, c: C, x: C)
    requires Sound(w) && c in w.t.parent && c in w.t.live && w.t.items[c] == {} && x in w.t.live && x != c
    ensures x in Reclaim(w, c).t.items && x in Reclaim(w, c).refs
    ensures Forgotten(Reclaim(w, c), x) ==> Forgotten(w, x)
  {
    var p := w.t.parent[c];
    ReclaimIs(w, c);
    assert ChildRight(w.t, c);
    assert |w.t.items[p] - {c}| == |w.t.items[p]| - 1;
  }

  lemma StaysForgets<C>(s: Pass<C>, c: C, x: C)
    requires PassInv(s) && Passable(s) && c in s.todo && x in s.w.t.live
    ensures Forgotten(Dropped(s, c).w, x) && (x == c ==> Unreclaimable(s.w.t, c)) ==> Forgotten(s.w, x)
    ensures Forgotten(Rejected(s, c).w, x) ==> Forgotten(s.w, x)
  {
  }

  lemma TurnForgets<C>(s: Pass<C>, c: C, fails: bool, x: C)
    requires PassInv(s) && Passable(s) && c in s.todo && x in s.w.t.live && x in Turn(s, c, fails).w.t.live
    ensures PassInv(Turn(s, c, fails))
    ensures Forgotten(Turn(s, c, fails).w, x) ==> Forgotten(s.w, x)
  {
    hide Right, Counted, Reclaim, PassInv;
    TurnedIs(s, c, fails);
    StaysForgets(s, c, x);
    PassIsSound(s);
    if s.w.t.items[c] == {} && x != c {
      if c in s.w.t.parent {
        ReclaimForgets(s.w, c, x);
      } else {
        DeletedForgets(s.w, c, x);
      }
    }
  }

  lemma PassIsSound<C>(s: Pass<C>)
    requires PassInv(s)
    ensures Sound(s.w)
  {
  }

  lemma DeletedForgets<C>(w: World<C>, c: C, x: C)
    requires Sound(w) && c in w.t.live && c !in w.t.parent && x in w.t.live && x != c
    ensures Forgotten(Deleted(w, c), x) ==> Forgotten(w, x)
  {
  }

  lemma {:induction false} LoopForgets<C>(s: Pass<C>, order: seq<(C, bool)>, quota: int, x: C)
    requires PassInv(s) && Passable(s) && Enumerates(order, s.todo) && x in s.w.t.live && x in Loop(s, order, quota).w.t.live
    ensures Forgotten(Loop(s, order, quota).w, x) ==> Forgotten(s.w, x)
    decreases |order|
  {
    if order != [] && !(quota > 0 && s.ret >= quota) {
      TurnedIs(s, order[0].0, order[0].1);
      TurnForgets(s, order[0].0, order[0].1, x);
      LoopForgets(Turn(s, order[0].0, order[0].1), order[1..], quota, x);
    }
  }

  lemma CleanUpForgets<C>(w: World<C>, cfg: Settings, force: bool, order: seq<(C, bool)>, x: C)
    requires Inv(w) && Formed(w) && Enumerates(order, w.free)
    requires x in w.t.live && x in CleanUp(w, cfg, force, order).0.t.live
    ensures Forgotten(CleanUp(w, cfg, force, order).0, x) ==> Forgotten(w, x)
  {
    if !Declines(cfg, force, |w.free|) {
      PassStarts(w);
      LoopForgets(Pass(w.(free := {}), w.free, {}, 0), order, cfg.maxAtOnce, x);
    }
  }

  // ---------------------------------------------------------------------------------------
  // The account
  // ---------------------------------------------------------------------------------------

  /** The world and how many handles clients hold on each live context. */
  datatype Held<C> = Held(w: World<C>, handles: map<C, int>)

  ghost predicate Agrees<C>(h: Held<C>, c: C)
    requires c in h.w.t.items && c in h.w.refs && c in h.handles
  {
    Clients(h.w, c) == h.handles[c] >= 0 && !Forgotten(h.w, c)
  }

  /** Every reference is accounted for: one for the owner, one for each child, one for each
      child that pins it and one for each client handle. And the list is what it should be:
      nobody on it is in use, and nobody idle that could be reclaimed is missing from it. */
  ghost predicate Accounted<C>(h: Held<C>) {
    Inv(h.w) && h.handles.Keys == h.w.t.live && forall c {:trigger Agrees(h, c)} :: c in h.w.t.live ==> Agrees(h, c)
  }

  lemma Spare<C>(h: Held<C>, c: C)
    requires Accounted(h) && c in h.w.t.live && h.handles[c] > 0
    ensures Clients(h.w, c) > 0 && h.w.refs[c] > Min(h.w.t, c) + Pins(h.w.t, h.w.held, c) && c !in h.w.free
  {
    assert Agrees(h, c);
  }

  // ---------------------------------------------------------------------------------------
  // Ancestors
  // ---------------------------------------------------------------------------------------

  function Ancestor<C(==)>(t: Tree<C>, c: C, n: nat): (a: C)
    requires Shape(t) && c in t.live
    ensures a in t.live
  {
    if n == 0 || c !in t.parent then c
    else
      assert ChildRight(t, c);
      Ancestor(t, t.parent[c], n - 1)
  }

  /** Whoever is in use keeps all its ancestors in use and off the list. */
  lemma {:induction false} AncestorsAreBusy<C>(w: World<C>, c: C, n: nat)
    requires Sound(w) && c in w.t.live && w.refs[c] > Min(w.t, c)
    ensures var a := Ancestor(w.t, c, n); w.refs[a] > Min(w.t, a) && a !in w.flag
  {
    assert Right(w.t, w.refs, w.held, c);
    if n > 0 && c in w.t.parent {
      assert ChildRight(w.t, c);
      PinnedIsBusy(w, c);
      AncestorsAreBusy(w, w.t.parent[c], n - 1);
    }
  }

  lemma PinnedIsBusy<C>(w: World<C>, c: C)
    requires Sound(w) && c in w.held && c in w.t.parent && w.t.parent[c] in w.t.live
    ensures w.refs[w.t.parent[c]] > Min(w.t, w.t.parent[c])
  {
    var p := w.t.parent[c];
    assert ChildRight(w.t, c);
    assert Right(w.t, w.refs, w.held, p);
    assert c in Pinning(w.t, w.held, p);
  }
}
