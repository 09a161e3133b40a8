/** A pass that a release starts: the released context is idle and listed by then and still pins
    its parent, and so do the contexts whose release is waiting for this one. */
module PinnedPass {
  import opened FreeList
  import opened FreeListPass
  import opened FreeListClients

  /** The release of c makes it idle, and it has a parent to let go. */
  ghost predicate Lists<C>(w: World<C>, c: C)
    requires c in w.t.items && c in w.refs
  {
    w.refs[c] - 1 == Min(w.t, c) && c in w.t.parent
  }

  // ---------------------------------------------------------------------------------------
  // A release and the turns of a pass change places
  // ---------------------------------------------------------------------------------------

  function At<C(==)>(s: Pass<C>, w: World<C>): Pass<C> {
    s.(w := w)
  }

  lemma UnpinnedPass<C>(s: Pass<C>, p: C)
    requires PassInv(s) && Passable(s) && p in s.w.t.live && Clients(s.w, p) > 0 && Lists(s.w, p)
    ensures PassInv(At(s, Unpinned(s.w, p))) && Passable(At(s, Unpinned(s.w, p)))
  {
    ReleasePinned(s.w, p);
  }

  lemma DeletedUnpinned<C>(w: World<C>, p: C, x: C)
    requires Sound(w) && p in w.t.live && Clients(w, p) > 0 && Lists(w, p)
    requires x in w.t.live && x !in w.t.parent && w.t.items[x] == {}
    ensures var w' := Deleted(w, x);
            && p in w'.t.items && p in w'.refs && Lists(w', p)
            && Deleted(Unpinned(w, p), x) == Unpinned(w', p)
  {
    var w' := Deleted(w, x);
    assert w.flag + {p} - {x} == w.flag - {x} + {p};
    assert w.free + {p} - {x} == w.free - {x} + {p};
    assert w.held - {p} - {x} == w.held - {x} - {p};
    assert w.refs[p := w.refs[p] - 1] - {x} == (w.refs - {x})[p := w.refs[p] - 1];
  }

  /** Who may go on the list when idle. */
  predicate Listable<C(==)>(t: Tree<C>, c: C)
    requires c in t.items
  {
    c in t.parent || (c in t.metadata && t.items[c] == {})
  }

  function Listed<C(==)>(w: World<C>, c: C, yes: bool): World<C> {
    if yes then w.(flag := w.flag + {c}, free := w.free + {c}) else w
  }

  /** The world without the leaf x, its parent one reference down. */
  function Plucked<C(==)>(w: World<C>, x: C): World<C>
    requires x in w.t.parent && w.t.parent[x] in w.t.items && w.t.parent[x] in w.refs
  {
    World(Cut(w.t, x), w.refs[w.t.parent[x] := w.refs[w.t.parent[x]] - 1] - {x}, w.held, w.flag - {x}, w.free - {x})
  }

  /** The parent is offered to the list exactly when it was idle, and then it pins nobody. */
  lemma ReclaimExact<C>(w: World<C>, x: C)
    requires Sound(w) && x in w.t.parent && w.t.items[x] == {}
    ensures w.t.parent[x] in w.t.items && w.t.parent[x] in w.refs && w.t.parent[x] != x
    ensures var y := w.t.parent[x];
            y in Plucked(w, x).t.items &&
            Reclaim(w, x) == Listed(Plucked(w, x), y, w.refs[y] == Min(w.t, y) && y !in w.flag && Listable(Cut(w.t, x), y))
  {
    var y := w.t.parent[x];
    assert ChildRight(w.t, x);
    assert Right(w.t, w.refs, w.held, y);
    CutKeepsShape(w.t, x);
    assert (w.refs - {x})[y := w.refs[y] - 1] == w.refs[y := w.refs[y] - 1] - {x};
    assert |w.t.items[y] - {x}| == |w.t.items[y]| - 1;
  }

  lemma UnpinnedIs<C>(w: World<C>, p: C)
    requires Sound(w) && p in w.t.live && Lists(w, p)
    ensures p !in w.flag
    ensures Unpinned(w, p) == w.(refs := w.refs[p := w.refs[p] - 1], held := w.held - {p},
                                 flag := w.flag + {p}, free := w.free + {p})
  {
  }

  lemma CutMin<C>(t: Tree<C>, x: C, p: C)
    requires Shape(t) && x in t.parent && p in t.live && p != x
    ensures t.parent[x] in t.items && p in Cut(t, x).items && (p in Cut(t, x).parent <==> p in t.parent)
    ensures Min(Cut(t, x), p) == Min(t, p) - if p == t.parent[x] then 1 else 0
  {
    assert ChildRight(t, x);
    assert |t.items[t.parent[x]] - {x}| == |t.items[t.parent[x]]| - 1;
  }

  lemma ReclaimUnpinned<C>(w: World<C>, p: C, x: C)
    requires Sound(w) && p in w.t.live && Clients(w, p) > 0 && Lists(w, p)
    requires x in w.t.parent && x in w.t.live && w.t.items[x] == {} && w.refs[x] == Min(w.t, x)
    ensures Sound(Unpinned(w, p))
    ensures var w' := Reclaim(w, x);
            && p in w'.t.items && p in w'.refs && Lists(w', p)
            && Reclaim(Unpinned(w, p), x) == Unpinned(w', p)
  {
    hide Right, Reclaim, Cut, Unpinned;
    ReleasePinned(w, p);
    UnpinnedIs(w, p);
    ReclaimExact(w, x);
    ReclaimExact(Unpinned(w, p), x);
    CutMin(w.t, x, p);
    PluckedUnpinned(w, p, x);
    ListedUnpinned(w, p, x, w.t.parent[x]);
  }

  /** Listing p and listing the parent of x, in either order. */
  lemma ListedUnpinned<C>(w: World<C>, p: C, x: C, y: C)
    requires Shape(w.t) && w.refs.Keys == w.t.live && p in w.t.live && p !in w.flag && p != x && Lists(w, p)
    requires x in w.t.parent && x in w.t.live && y == w.t.parent[x] && y in w.t.items && y in w.refs
    requires p in Cut(w.t, x).items && p in Cut(w.t, x).parent && y in Cut(w.t, x).items
    requires Min(Cut(w.t, x), p) == Min(w.t, p) - if p == y then 1 else 0
    ensures var u := w.(refs := w.refs[p := w.refs[p] - 1], held := w.held - {p},
                        flag := w.flag + {p}, free := w.free + {p});
            var w' := Plucked(w, x);
            && p in w'.t.items && p in w'.refs
            && forall b: bool :: (p == y ==> !b) ==>
                Lists(Listed(w', y, b), p) &&
                Unpinned(Listed(w', y, b), p) ==
                Listed(w'.(refs := w'.refs[p := w'.refs[p] - 1], held := w'.held - {p},
                           flag := w'.flag + {p}, free := w'.free + {p}), y, b)
  {
    hide Cut, Shape;
    var w' := Plucked(w, x);
    assert w'.flag + {y} + {p} == w'.flag + {p} + {y};
    assert w'.free + {y} + {p} == w'.free + {p} + {y};
  }

  lemma PluckedUnpinned<C>(w: World<C>, p: C, x: C)
    requires Shape(w.t) && w.refs.Keys == w.t.live && p in w.t.parent && p in w.t.live && p !in w.flag && p != x
    requires x in w.t.parent && x in w.t.live && w.t.items[x] == {} && w.refs[p] - 1 == Min(w.t, p)
    ensures w.t.parent[x] in w.t.items && w.t.parent[x] in w.refs
    ensures var w' := Plucked(w, x);
            var u := w.(refs := w.refs[p := w.refs[p] - 1], held := w.held - {p},
                        flag := w.flag + {p}, free := w.free + {p});
            Plucked(u, x) == w'.(refs := w'.refs[p := w'.refs[p] - 1], held := w'.held - {p},
                                 flag := w'.flag + {p}, free := w'.free + {p})
  {
    assert ChildRight(w.t, x);
    var y := w.t.parent[x];
    var refs := w.refs;
    assert w.flag + {p} - {x} == w.flag - {x} + {p};
    assert w.free + {p} - {x} == w.free - {x} + {p};
    var r1 := (refs[p := refs[p] - 1])[y := refs[p := refs[p] - 1][y] - 1] - {x};
    var r2 := (refs[y := refs[y] - 1] - {x})[p := (refs[y := refs[y] - 1] - {x})[p] - 1];
    assert r1 == r2;
  }

  /** A release that stops at p. */
  lemma PlainRelease<C>(w: World<C>, p: C)
    requires Sound(w) && p in w.t.live && Clients(w, p) > 0 && !Lists(w, p)
    ensures p !in w.flag && Sound(Release(w, p))
    ensures Release(w, p) == Listed(w.(refs := w.refs[p := w.refs[p] - 1]), p,
                                    w.refs[p] - 1 == Min(w.t, p) && Listable(w.t, p))
  {
    ReleaseKeeps(w, p);
  }

  lemma CutListable<C>(t: Tree<C>, x: C, p: C)
    requires Shape(t) && x in t.parent && p in t.live && p != x
    ensures t.parent[x] in t.items && p in Cut(t, x).items
    ensures p != t.parent[x] ==> (Listable(Cut(t, x), p) <==> Listable(t, p))
    ensures p == t.parent[x] && p !in t.parent ==> !Listable(t, p)
  {
    assert ChildRight(t, x);
  }

  lemma PluckedLowered<C>(w: World<C>, p: C, x: C, b: bool)
    requires Shape(w.t) && w.refs.Keys == w.t.live && p in w.t.live && p != x && x in w.t.parent && x in w.t.live
    ensures w.t.parent[x] in w.t.items && w.t.parent[x] in w.refs && p in Plucked(w, x).refs
    ensures var w' := Plucked(w, x);
            Plucked(Listed(w.(refs := w.refs[p := w.refs[p] - 1]), p, b), x) ==
            Listed(w'.(refs := w'.refs[p := w'.refs[p] - 1]), p, b)
  {
    assert ChildRight(w.t, x);
    var y := w.t.parent[x];
    var refs := w.refs;
    assert w.flag + {p} - {x} == w.flag - {x} + {p};
    assert w.free + {p} - {x} == w.free - {x} + {p};
    var r1 := (refs[p := refs[p] - 1])[y := refs[p := refs[p] - 1][y] - 1] - {x};
    var r2 := (refs[y := refs[y] - 1] - {x})[p := (refs[y := refs[y] - 1] - {x})[p] - 1];
    assert r1 == r2;
  }

  lemma ListedLowered<C>(w: World<C>, p: C, b: bool, y: C, d: bool)
    requires p in w.refs
    ensures var w' := Listed(w, y, d);
            Listed(w'.(refs := w'.refs[p := w'.refs[p] - 1]), p, b) ==
            Listed(Listed(w.(refs := w.refs[p := w.refs[p] - 1]), p, b), y, d)
  {
    assert w.flag + {y} + {p} == w.flag + {p} + {y};
    assert w.free + {y} + {p} == w.free + {p} + {y};
  }

  lemma SoundKeys<C>(w: World<C>)
    requires Sound(w)
    ensures Shape(w.t) && w.refs.Keys == w.t.live
  {
  }

  lemma ReclaimPlainOther<C>(w: World<C>, p: C, x: C)
    requires Sound(w) && p in w.t.live && Clients(w, p) > 0 && !Lists(w, p)
    requires x in w.t.parent && x in w.t.live && w.t.items[x] == {} && p != x && p != w.t.parent[x]
    requires Sound(Release(w, p)) && Sound(Reclaim(w, x)) && p in Reclaim(w, x).t.live && Clients(Reclaim(w, x), p) > 0
    ensures !Lists(Reclaim(w, x), p) && Reclaim(Release(w, p), x) == Release(Reclaim(w, x), p)
  {
    hide Sound, Clients, Reclaim, Cut, Release, Listable, Listed;
    SoundKeys(w);
    var y := w.t.parent[x];
    CutMin(w.t, x, p);
    CutListable(w.t, x, p);
    ReclaimExact(w, x);
    var low := w.(refs := w.refs[p := w.refs[p] - 1]);
    var b := w.refs[p] - 1 == Min(w.t, p) && Listable(w.t, p);
    var d := w.refs[y] == Min(w.t, y) && y !in w.flag && Listable(Cut(w.t, x), y);
    PlainRelease(w, p);
    ListedFields(low, p, b);
    ReclaimExact(Release(w, p), x);
    PluckedLowered(w, p, x, b);
    ListedFields(Plucked(w, x), y, d);
    PlainRelease(Reclaim(w, x), p);
    ListedLowered(Plucked(w, x), p, b, y, d);
  }

  lemma ReclaimPlainParent<C>(w: World<C>, p: C, x: C)
    requires Sound(w) && p in w.t.live && Clients(w, p) > 0 && !Lists(w, p)
    requires x in w.t.parent && x in w.t.live && w.t.items[x] == {} && p != x && p == w.t.parent[x]
    requires Sound(Release(w, p)) && Sound(Reclaim(w, x)) && p in Reclaim(w, x).t.live && Clients(Reclaim(w, x), p) > 0
    ensures !Lists(Reclaim(w, x), p) && Reclaim(Release(w, p), x) == Release(Reclaim(w, x), p)
  {
    hide Sound, Reclaim, Cut, Release, Listable, Listed;
    SoundKeys(w);
    CutMin(w.t, x, p);
    CutListable(w.t, x, p);
    ReclaimExact(w, x);
    var low := w.(refs := w.refs[p := w.refs[p] - 1]);
    PlainRelease(w, p);
    assert !(w.refs[p] - 1 == Min(w.t, p) && Listable(w.t, p));
    ListedNot(low, p);
    assert Release(w, p) == low;
    ListedNot(Plucked(w, x), p);
    ReclaimExact(low, x);
    PluckedLowered(w, p, x, false);
    ListedNot(Plucked(w, x).(refs := Plucked(w, x).refs[p := Plucked(w, x).refs[p] - 1]), p);
    PlainRelease(Reclaim(w, x), p);
  }

  lemma ReclaimPlain<C>(w: World<C>, p: C, x: C)
    requires Sound(w) && p in w.t.live && Clients(w, p) > 0 && !Lists(w, p)
    requires x in w.t.parent && x in w.t.live && w.t.items[x] == {} && w.refs[x] == Min(w.t, x)
    ensures Sound(Release(w, p)) && Sound(Reclaim(w, x)) && p in Reclaim(w, x).t.live
    ensures !Lists(Reclaim(w, x), p) && Reclaim(Release(w, p), x) == Release(Reclaim(w, x), p)
  {
    hide Right, Reclaim, Cut, Release, Lists;
    assert p != x;
    PlainRelease(w, p);
    ReclaimKeeps(w, x);
    ReclaimClients(w, x, p);
    if p == w.t.parent[x] {
      ReclaimPlainParent(w, p, x);
    } else {
      ReclaimPlainOther(w, p, x);
    }
  }

  lemma ListedFields<C>(w: World<C>, c: C, yes: bool)
    ensures Listed(w, c, yes).t == w.t && Listed(w, c, yes).refs == w.refs && Listed(w, c, yes).held == w.held
    ensures Listed(w, c, yes).flag == if yes then w.flag + {c} else w.flag
  {
  }

  lemma ListedNot<C>(w: World<C>, c: C)
    ensures Listed(w, c, false) == w
  {
  }

  lemma DeletedListed<C>(w: World<C>, p: C, x: C, b: bool)
    requires p in w.refs && p != x && x !in w.t.parent
    ensures var w' := Deleted(w, x);
            Deleted(Listed(w.(refs := w.refs[p := w.refs[p] - 1]), p, b), x) ==
            Listed(w'.(refs := w'.refs[p := w'.refs[p] - 1]), p, b)
  {
    assert w.flag + {p} - {x} == w.flag - {x} + {p};
    assert w.free + {p} - {x} == w.free - {x} + {p};
    assert w.refs[p := w.refs[p] - 1] - {x} == (w.refs - {x})[p := w.refs[p] - 1];
  }

  lemma DeletedPlain<C>(w: World<C>, p: C, x: C)
    requires Sound(w) && p in w.t.live && Clients(w, p) > 0 && !Lists(w, p)
    requires x in w.t.live && x !in w.t.parent && w.t.items[x] == {} && w.refs[x] == Min(w.t, x)
    ensures Sound(Deleted(w, x)) && p in Deleted(w, x).t.live && !Lists(Deleted(w, x), p)
    ensures Deleted(Release(w, p), x) == Release(Deleted(w, x), p)
  {
    var w' := Deleted(w, x);
    DeletedKeeps(w, x);
    DeletedClients(w, x, p);
    PlainRelease(w, p);
    PlainRelease(w', p);
    DeletedListed(w, p, x, w.refs[p] - 1 == Min(w.t, p) && Listable(w.t, p));
  }

  /** What stays as it is for a context that is held while a pass takes a turn. */
  lemma TurnSpares<C>(s: Pass<C>, p: C, x: C, fails: bool)
    requires PassInv(s) && Passable(s) && p in s.w.t.live && Clients(s.w, p) > 0 && x in s.todo
    ensures var s' := Turn(s, x, fails);
            && x != p && s.w.refs[x] == Min(s.w.t, x) && PassInv(s') && Passable(s') && p in s'.w.t.live
            && Clients(s'.w, p) == Clients(s.w, p)
  {
    TurnKeeps(s, x, fails);
    TurnedIs(s, x, fails);
    TurnClients(s, x, fails, p);
  }

  /** What a turn does to the world. */
  function Effect<C(==)>(w: World<C>, x: C, fails: bool): World<C>
    requires Formed(w) && x in w.t.live
  {
    if x !in w.t.parent then
      if x !in w.t.metadata || w.t.items[x] != {} then w.(flag := w.flag - {x}) else Deleted(w, x)
    else if x in w.t.overmounted || x !in w.t.supports then w.(flag := w.flag - {x})
    else if w.t.items[x] != {} || w.refs[x] > Min(w.t, x) || fails then w.(flag := w.flag + {x})
    else Reclaim(w, x)
  }

  /** Worlds that agree on the tree and on x have the same turn otherwise. */
  lemma TurnAt<C>(s: Pass<C>, v: World<C>, x: C, fails: bool)
    requires Passable(s) && Formed(v) && v.t == s.w.t && x in s.todo && v.refs[x] == s.w.refs[x]
    ensures Passable(At(s, v)) && Turn(At(s, v), x, fails) == At(Turn(s, x, fails), Effect(v, x, fails))
    ensures Turn(s, x, fails).w == Effect(s.w, x, fails)
  {
    hide Shape, Reclaim, Deleted;
  }

  lemma EffectUnpinned<C>(w: World<C>, p: C, x: C, fails: bool)
    requires Sound(w) && Formed(w) && p in w.t.live && Clients(w, p) > 0 && Lists(w, p)
    requires x in w.t.live && x != p && w.refs[x] == Min(w.t, x) && x in w.flag && Formed(Unpinned(w, p))
    ensures var w' := Effect(w, x, fails);
            && p in w'.t.items && p in w'.refs && Lists(w', p)
            && Effect(Unpinned(w, p), x, fails) == Unpinned(w', p)
  {
    if w.t.items[x] == {} {
      if x in w.t.parent {
        ReclaimUnpinned(w, p, x);
      } else {
        DeletedUnpinned(w, p, x);
      }
    }
    UnpinnedIs(w, p);
    FlagUnpinned(w, p, x);
    FlagSame(w, x);
    FlagSame(Unpinned(w, p), x);
  }

  lemma FlagUnpinned<C>(w: World<C>, p: C, x: C)
    requires Sound(w) && p in w.t.live && Lists(w, p) && x != p
    ensures Unpinned(w.(flag := w.flag - {x}), p) == Unpinned(w, p).(flag := Unpinned(w, p).flag - {x})
  {
    assert w.flag + {p} - {x} == w.flag - {x} + {p};
  }

  lemma EffectPlain<C>(w: World<C>, p: C, x: C, fails: bool)
    requires Sound(w) && Formed(w) && p in w.t.live && Clients(w, p) > 0 && !Lists(w, p)
    requires x in w.t.live && x != p && w.refs[x] == Min(w.t, x) && x in w.flag && Formed(Release(w, p))
    ensures var w' := Effect(w, x, fails);
            && Formed(w') && p in w'.t.live && !Lists(w', p)
            && Effect(Release(w, p), x, fails) == Release(w', p)
  {
    hide Release, Reclaim, Deleted, Sound, Clients, Shape;
    SoundKeys(w);
    TreeKeys(w);
    if w.t.items[x] == {} {
      if x in w.t.parent {
        ReclaimPlain(w, p, x);
      } else {
        DeletedPlain(w, p, x);
      }
    }
    PlainRelease(w, p);
    FlagPlain(w, p, x);
    FlagSame(w, x);
    FlagSame(Release(w, p), x);
    EffectForms(w, x, fails);
  }

  lemma FlagSame<C>(w: World<C>, x: C)
    requires x in w.flag
    ensures w.(flag := w.flag + {x}) == w
  {
    assert w.flag + {x} == w.flag;
  }

  lemma EffectForms<C>(w: World<C>, x: C, fails: bool)
    requires Formed(w) && x in w.t.live
    ensures Formed(Effect(w, x, fails)) && w.t.live - {x} <= Effect(w, x, fails).t.live
  {
    TurnIs(Pass(w, {x}, {}, 0), x, fails);
    TurnAt(Pass(w, {x}, {}, 0), w, x, fails);
  }

  lemma FlagPlain<C>(w: World<C>, p: C, x: C)
    requires Sound(w) && p in w.t.live && Clients(w, p) > 0 && !Lists(w, p) && x != p
    ensures Release(w.(flag := w.flag - {x}), p) == Release(w, p).(flag := Release(w, p).flag - {x})
  {
    assert w.flag + {p} - {x} == w.flag - {x} + {p};
  }

  lemma EffectKeeps<C>(w: World<C>, p: C, x: C, fails: bool)
    requires Sound(w) && Formed(w) && x in w.t.live && w.refs[x] == Min(w.t, x) && x in w.flag && p in w.t.live && p != x
    ensures var w' := Effect(w, x, fails);
            && Sound(w') && Formed(w') && p in w'.t.live && Clients(w', p) == Clients(w, p)
            && (p in w'.t.parent <==> p in w.t.parent) && (p in w.t.parent ==> w'.t.parent[p] == w.t.parent[p])
            && w'.t.depth[p] == w.t.depth[p]
  {
    hide Right;
    EffectForms(w, x, fails);
    if w.t.items[x] == {} {
      if x in w.t.parent {
        ReclaimKeeps(w, x);
        ReclaimClients(w, x, p);
      } else {
        DeletedKeeps(w, x);
        DeletedClients(w, x, p);
      }
    }
    SameClients(w, w.(flag := w.flag - {x}), p);
    FlagSame(w, x);
  }

  /** A turn, and the release of a context that is held: the order does not matter. */
  lemma {:induction false} EffectReleased<C>(w: World<C>, p: C, x: C, fails: bool)
    requires Sound(w) && Formed(w) && p in w.t.live && Clients(w, p) > 0
    requires x in w.t.live && w.refs[x] == Min(w.t, x) && x in w.flag
    ensures p != x && p in Effect(w, x, fails).t.live && Formed(Effect(w, x, fails))
    ensures Sound(Release(w, p)) && Formed(Release(w, p)) && Release(w, p).refs[x] == w.refs[x]
    ensures Effect(Release(w, p), x, fails) == Release(Effect(w, x, fails), p)
    decreases w.t.depth[p]
  {
    hide Right, Effect, Reclaim, Deleted;
    ReleaseKeeps(w, p);
    EffectKeeps(w, p, x, fails);
    if Lists(w, p) {
      var u, q := Unpinned(w, p), w.t.parent[p];
      ReleasePinned(w, p);
      assert ChildRight(w.t, p);
      EffectUnpinned(w, p, x, fails);
      ReleasePinned(Effect(w, x, fails), p);
      EffectReleased(u, q, x, fails);
    } else {
      PlainRelease(w, p);
      EffectPlain(w, p, x, fails);
    }
  }

  lemma {:induction false} ReleaseSplits<C>(s: Pass<C>, p: C)
    requires PassInv(s) && Passable(s) && p in s.w.t.live && Clients(s.w, p) > 0
    ensures PassInv(At(s, Release(s.w, p))) && Passable(At(s, Release(s.w, p)))
    decreases s.w.t.depth[p]
  {
    hide Right, Counted;
    if Lists(s.w, p) {
      ReleasePinned(s.w, p);
      UnpinnedPass(s, p);
      assert ChildRight(s.w.t, p);
      ReleaseSplits(At(s, Unpinned(s.w, p)), s.w.t.parent[p]);
    } else {
      PlainRelease(s.w, p);
    }
  }

  /** So a release may come before a pass or after it. */
  lemma {:induction false} LoopReleased<C>(s: Pass<C>, p: C, order: seq<(C, bool)>, quota: int)
    requires PassInv(s) && Passable(s) && p in s.w.t.live && Clients(s.w, p) > 0 && Enumerates(order, s.todo)
    ensures Passable(At(s, Release(s.w, p)))
    ensures var s' := Loop(s, order, quota);
            && p in s'.w.t.live && Clients(s'.w, p) == Clients(s.w, p)
            && Loop(At(s, Release(s.w, p)), order, quota) == At(s', Release(s'.w, p))
    decreases |order|
  {
    hide PassInv, Passable, Sound, Turn, Release, Clients, Effect, Shrunk;
    ReleaseSplits(s, p);
    if order != [] && !(quota > 0 && s.ret >= quota) {
      var x, fails := order[0].0, order[0].1;
      TurnSpares(s, p, x, fails);
      TurnReleased(s, p, x, fails);
      TurnedIs(s, x, fails);
      LoopReleased(Turn(s, x, fails), p, order[1..], quota);
    }
  }

  lemma TurnReleased<C>(s: Pass<C>, p: C, x: C, fails: bool)
    requires PassInv(s) && Passable(s) && p in s.w.t.live && Clients(s.w, p) > 0 && x in s.todo
    ensures Passable(At(s, Release(s.w, p)))
    ensures var s' := Turn(s, x, fails);
            && Passable(s') && p in s'.w.t.live
            && Turn(At(s, Release(s.w, p)), x, fails) == At(s', Release(s'.w, p))
  {
    hide Sound, Turn, Effect;
    ReleaseSplits(s, p);
    TurnSpares(s, p, x, fails);
    PassIsSound(s);
    EffectReleased(s.w, p, x, fails);
    TurnAt(s, Release(s.w, p), x, fails);
  }

  // ---------------------------------------------------------------------------------------
  // Pins that are out of date
  // ---------------------------------------------------------------------------------------

  /** The world with more contexts pinning their parents. */
  function Also<C>(w: World<C>, pins: set<C>): World<C> {
    w.(held := w.held + pins)
  }

  lemma ReclaimAside<C>(w: World<C>, pins: set<C>, x: C)
    requires Sound(w) && x in w.t.parent && w.t.items[x] == {} && w.t.parent[x] !in pins
    ensures Reclaim(Also(w, pins), x) == Also(Reclaim(w, x), pins)
  {
    var y := w.t.parent[x];
    assert ChildRight(w.t, x);
    assert Right(w.t, w.refs, w.held, y);
    CutKeepsShape(w.t, x);
    assert |w.t.items[y] - {x}| == |w.t.items[y]| - 1;
  }

  lemma DeletedAside<C>(w: World<C>, pins: set<C>, x: C)
    requires x !in w.t.parent && x !in pins
    ensures Deleted(Also(w, pins), x) == Also(Deleted(w, x), pins)
  {
    assert w.held + pins - {x} == w.held - {x} + pins;
  }

  /** A turn that takes no child of such a context does not notice. */
  lemma EffectAside<C>(w: World<C>, pins: set<C>, x: C, fails: bool)
    requires Sound(w) && Formed(w) && x in w.t.live && w.refs[x] == Min(w.t, x) && (x in pins ==> x in w.t.parent)
    requires x in w.t.parent && w.t.parent[x] in pins ==> x in Effect(w, x, fails).t.live
    ensures Effect(Also(w, pins), x, fails) == Also(Effect(w, x, fails), pins)
  {
    hide Sound, Reclaim, Deleted;
    if w.t.items[x] == {} {
      if x in w.t.parent {
        if w.t.parent[x] !in pins {
          ReclaimAside(w, pins, x);
        }
      } else {
        DeletedAside(w, pins, x);
      }
    }
  }

  /** A turn that takes a child of c has c give its pin up: the parent of c is released. */
  lemma ReclaimOfChild<C>(w: World<C>, pins: set<C>, c: C, x: C)
    requires Sound(w) && x in w.t.parent && w.t.items[x] == {} && w.t.parent[x] == c
    requires c in w.t.live && w.refs[c] == Min(w.t, c) && c in w.t.parent && w.t.parent[c] in w.t.live && c !in pins
    requires forall y :: y in pins && y in w.t.live ==> w.t.depth[y] > w.t.depth[w.t.parent[c]]
    ensures var p := w.t.parent[c];
            && p in Reclaim(w, x).t.live && Shape(Reclaim(w, x).t)
            && Reclaim(Also(w, pins + {c}), x) == Also(Release(Reclaim(w, x), p), pins)
  {
    hide Reclaim, Release, Cut, Pins, Clients;
    var p := w.t.parent[c];
    assert Right(w.t, w.refs, w.held, c);
    assert c !in w.held;
    ReclaimIdle(w, c, x);
    var w1 := Reclaim(w, x);
    DeeperStay(w.t, x, pins + {c}, c);
    ReleaseAside(w1, pins + {c}, p);
    ReleaseHeld(w1, p);
    var w2 := Release(w1, p);
    assert w2.held + (pins + {c}) - {c} == w2.held + pins;
    ReclaimIdle(Also(w, pins + {c}), c, x);
  }

  lemma DeeperStay<C>(t: Tree<C>, x: C, pins: set<C>, c: C)
    requires Shape(t) && x in t.parent && t.items[x] == {} && c in t.parent && c in pins && t.parent[x] == c
    requires t.parent[c] in t.live
    requires forall y :: y in pins && y in t.live ==> y == c || t.depth[y] > t.depth[t.parent[c]]
    ensures t.parent[x] in t.items && t.parent[c] in Cut(t, x).live && t.parent[c] in Cut(t, x).depth
    ensures Cut(t, x).depth.Keys == Cut(t, x).live
    ensures forall y :: y in pins && y in Cut(t, x).live ==> Cut(t, x).depth[y] > Cut(t, x).depth[t.parent[c]]
  {
    assert ChildRight(t, x) && ChildRight(t, c);
  }

  /** Reclaiming a child of an idle context: it stays idle, and gives up its pin if it has one. */
  lemma ReclaimIdle<C>(w: World<C>, c: C, x: C)
    requires Shape(w.t) && w.refs.Keys == w.t.live && x in w.t.parent && w.t.items[x] == {} && w.t.parent[x] == c
    requires c in w.t.live && w.refs[c] == Min(w.t, c) && c in w.t.parent && w.t.parent[c] in w.t.live
    ensures Shape(Cut(w.t, x)) && w.t.parent[c] in Cut(w.t, x).live && c in Cut(w.t, x).items
    ensures var cut := World(Cut(w.t, x), (w.refs - {x})[c := w.refs[c] - 1], w.held, w.flag - {x}, w.free - {x});
            var w1 := TryToAdd(cut, c);
            Reclaim(w, x) ==
            if c in w.held then Release(w1, w.t.parent[c]).(held := Release(w1, w.t.parent[c]).held - {c}) else w1
  {
    assert ChildRight(w.t, c) && ChildRight(w.t, x);
    CutKeepsShape(w.t, x);
    assert |w.t.items[c] - {x}| == |w.t.items[c]| - 1;
  }

  lemma {:induction false} ReleaseHeld<C>(w: World<C>, p: C)
    requires Shape(w.t) && w.refs.Keys == w.t.live && p in w.t.live
    ensures Release(w, p).held <= w.held
    decreases w.t.depth[p]
  {
    if p in w.t.parent && p in w.held && w.refs[p] - 1 == Min(w.t, p) {
      assert ChildRight(w.t, p);
      ReleaseHeld(TryToAdd(w.(refs := w.refs[p := w.refs[p] - 1]), p), w.t.parent[p]);
    }
  }

  /** The contexts of a set keep their children, and each has a parent to pin. */
  ghost predicate Undisturbed<C>(t: Tree<C>, t': Tree<C>, pins: set<C>)
    requires t.items.Keys == t.live
  {
    forall y :: y in pins && y in t.live ==> y in t.parent && t.items[y] <= t'.live
  }

  lemma UndisturbedLater<C>(t: Tree<C>, t1: Tree<C>, t2: Tree<C>, pins: set<C>)
    requires Shrunk(t, t1) && t2.live <= t1.live && Undisturbed(t, t2, pins)
    ensures Undisturbed(t1, t2, pins)
  {
  }

  lemma TurnAside<C>(s: Pass<C>, pins: set<C>, x: C, fails: bool)
    requires PassInv(s) && Passable(s) && x in s.todo && Undisturbed(s.w.t, Turn(s, x, fails).w.t, pins)
    ensures Passable(At(s, Also(s.w, pins)))
    ensures var s' := Turn(s, x, fails);
            Turn(At(s, Also(s.w, pins)), x, fails) == At(s', Also(s'.w, pins))
  {
    TurnAt(s, s.w, x, fails);
    if x in s.w.t.parent {
      assert ChildRight(s.w.t, x);
    }
    EffectAside(s.w, pins, x, fails);
    TurnAt(s, Also(s.w, pins), x, fails);
  }

  /** Nor does a pass that leaves their children alone. */
  lemma {:induction false} LoopAside<C>(s: Pass<C>, pins: set<C>, order: seq<(C, bool)>, quota: int)
    requires PassInv(s) && Passable(s) && Enumerates(order, s.todo)
    requires Undisturbed(s.w.t, Loop(s, order, quota).w.t, pins)
    ensures Passable(At(s, Also(s.w, pins)))
    ensures var s' := Loop(s, order, quota);
            Loop(At(s, Also(s.w, pins)), order, quota) == At(s', Also(s'.w, pins))
    decreases |order|
  {
    hide PassInv, Turn, Shape;
    if order != [] && !(quota > 0 && s.ret >= quota) {
      var x, fails := order[0].0, order[0].1;
      TurnedIs(s, x, fails);
      TurnAside(s, pins, x, fails);
      UndisturbedLater(s.w.t, Turn(s, x, fails).w.t, Loop(s, order, quota).w.t, pins);
      LoopAside(Turn(s, x, fails), pins, order[1..], quota);
    }
  }

  /** c is idle and still pins its parent, which is held for it; pins are contexts below it. */
  ghost predicate Pending<C>(w: World<C>, pins: set<C>, c: C)
    requires Shape(w.t) && w.refs.Keys == w.t.live
  {
    && c in w.t.live && c in w.t.parent && c !in pins && w.refs[c] == Min(w.t, c)
    && w.t.parent[c] in w.t.live && Clients(w, w.t.parent[c]) > 0
    && forall y :: y in pins && y in w.t.live ==> w.t.depth[y] > w.t.depth[w.t.parent[c]]
  }

  /** What the loop comes to with c and pins pinning their parents, in terms of the loop without. */
  ghost predicate PinnedEnd<C>(s: Pass<C>, pins: set<C>, c: C, p: C, order: seq<(C, bool)>, quota: int)
    requires Passable(s) && Enumerates(order, s.todo) && c in s.w.t.items
  {
    var s' := Loop(s, order, quota);
    && Passable(At(s, Also(s.w, pins + {c}))) && p in s'.w.t.live
    && Loop(At(s, Also(s.w, pins + {c})), order, quota) ==
       At(s', if s.w.t.items[c] <= s'.w.t.live then Also(s'.w, pins + {c}) else Also(Release(s'.w, p), pins))
  }

  /** A pass in a world in which c and pins still pin their parents does what it does when they do
      not, and if it takes a child of c it releases the parent of c as well. */
  lemma {:induction false} LoopPinned<C>(s: Pass<C>, pins: set<C>, c: C, order: seq<(C, bool)>, quota: int)
    requires PassInv(s) && Passable(s) && Enumerates(order, s.todo) && Pending(s.w, pins, c)
    requires Undisturbed(s.w.t, Loop(s, order, quota).w.t, pins)
    ensures PinnedEnd(s, pins, c, s.w.t.parent[c], order, quota)
    decreases |order|
  {
    var p := s.w.t.parent[c];
    PassableAlso(s, pins + {c});
    ChildrenLive(s.w.t, c);
    TreeKeys(s.w);
    if order != [] && !(quota > 0 && s.ret >= quota) {
      var x, fails := order[0].0, order[0].1;
      var s1 := Turn(s, x, fails);
      TurnedIs(s, x, fails);
      TurnSpares(s, p, x, fails);
      UndisturbedLater(s.w.t, s1.w.t, Loop(s, order, quota).w.t, pins);
      if !(s.w.t.items[c] <= s1.w.t.live) {
        ChildGone(s, pins, c, order, quota);
      } else {
        PendingTurn(s, pins, c, x, fails);
        if c in s1.w.t.live {
          LoopPinned(s1, pins, c, order[1..], quota);
        } else {
          PinnedGone(s, pins, c, order, quota);
        }
      }
    }
  }

  /** c goes: it had no children, and its pin is never looked at again. */
  lemma PinnedGone<C>(s: Pass<C>, pins: set<C>, c: C, order: seq<(C, bool)>, quota: int)
    requires PassInv(s) && Passable(s) && Enumerates(order, s.todo) && Pending(s.w, pins, c)
    requires order != [] && !(quota > 0 && s.ret >= quota)
    requires var s1 := Turn(s, order[0].0, order[0].1);
             && PassInv(s1) && Passable(s1) && s1.todo == s.todo - {order[0].0}
             && Undisturbed(s1.w.t, Loop(s, order, quota).w.t, pins)
             && s.w.t.items[c] <= s1.w.t.live && c !in s1.w.t.live
             && s.w.t.parent[c] in s1.w.t.live && Clients(s1.w, s.w.t.parent[c]) > 0
             && Passable(At(s, Also(s.w, pins + {c})))
             && Turn(At(s, Also(s.w, pins + {c})), order[0].0, order[0].1) == At(s1, Also(s1.w, pins + {c}))
    ensures PinnedEnd(s, pins, c, s.w.t.parent[c], order, quota)
  {
    hide PassInv, Turn, Shape, Clients, Release, Shrunk;
    var s1 := Turn(s, order[0].0, order[0].1);
    TurnedIs(s, order[0].0, order[0].1);
    assert c in s.w.t.live - s1.w.t.live;
    LoopReleased(s1, s.w.t.parent[c], order[1..], quota);
    LoopAside(s1, pins + {c}, order[1..], quota);
  }

  /** A child of c goes, and the parent of c is let go at once. */
  lemma ChildGone<C>(s: Pass<C>, pins: set<C>, c: C, order: seq<(C, bool)>, quota: int)
    requires PassInv(s) && Passable(s) && Enumerates(order, s.todo) && Pending(s.w, pins, c)
    requires order != [] && !(quota > 0 && s.ret >= quota)
    requires var s1 := Turn(s, order[0].0, order[0].1);
             && PassInv(s1) && Passable(s1) && s1.todo == s.todo - {order[0].0}
             && Undisturbed(s1.w.t, Loop(s, order, quota).w.t, pins)
             && s.w.t.live - {order[0].0} <= s1.w.t.live && !(s.w.t.items[c] <= s1.w.t.live)
             && s.w.t.parent[c] in s1.w.t.live && Clients(s1.w, s.w.t.parent[c]) > 0
    ensures PinnedEnd(s, pins, c, s.w.t.parent[c], order, quota)
  {
    hide PassInv, Turn, Shape, Clients, Release;
    var s1, p := Turn(s, order[0].0, order[0].1), s.w.t.parent[c];
    ChildTurn(s, pins, c, order[0].0, order[0].1);
    ReleaseSplits(s1, p);
    LoopReleased(s1, p, order[1..], quota);
    LoopAside(At(s1, Release(s1.w, p)), pins, order[1..], quota);
  }

  lemma PassableAlso<C>(s: Pass<C>, pins: set<C>)
    requires Passable(s)
    ensures Passable(At(s, Also(s.w, pins)))
  {
  }

  lemma EffectExcess<C>(w: World<C>, x: C, fails: bool, c: C)
    requires Sound(w) && Formed(w) && x in w.t.live && w.refs[x] == Min(w.t, x) && c in w.t.live
    requires c in Effect(w, x, fails).t.live
    ensures Formed(Effect(w, x, fails)) && Excess(Effect(w, x, fails), c) == Excess(w, c)
  {
    EffectForms(w, x, fails);
    if x in w.t.parent && w.t.items[x] == {} && c != x {
      ReclaimExact(w, x);
      CutMin(w.t, x, c);
    }
  }

  /** A turn that takes no child of c leaves c pending, unless it takes c. */
  lemma PendingTurn<C>(s: Pass<C>, pins: set<C>, c: C, x: C, fails: bool)
    requires PassInv(s) && Passable(s) && x in s.todo && Pending(s.w, pins, c)
    requires Passable(Turn(s, x, fails)) && Shrunk(s.w.t, Turn(s, x, fails).w.t)
    requires Undisturbed(s.w.t, Turn(s, x, fails).w.t, pins) && s.w.t.items[c] <= Turn(s, x, fails).w.t.live
    ensures Passable(At(s, Also(s.w, pins + {c})))
    ensures var s1 := Turn(s, x, fails);
            && Turn(At(s, Also(s.w, pins + {c})), x, fails) == At(s1, Also(s1.w, pins + {c}))
            && (c in s1.w.t.live ==>
                  Pending(s1.w, pins, c) && s1.w.t.items[c] == s.w.t.items[c] && s1.w.t.parent[c] == s.w.t.parent[c])
  {
    hide Right, Turn;
    var s1 := Turn(s, x, fails);
    TurnAside(s, pins + {c}, x, fails);
    TurnSpares(s, s.w.t.parent[c], x, fails);
    TurnAt(s, s.w, x, fails);
    if c in s1.w.t.live {
      EffectExcess(s.w, x, fails, c);
      ItemsKept(s.w.t, s1.w.t, c);
    }
  }

  lemma ItemsKept<C>(t: Tree<C>, t': Tree<C>, c: C)
    requires Shape(t) && Shape(t') && Shrunk(t, t') && c in t'.live && t.items[c] <= t'.live
    ensures t'.items[c] == t.items[c]
  {
    forall k | k in t.items[c]
      ensures k in t'.items[c]
    {
      assert ChildRight(t', k);
    }
  }

  lemma ChildTurn<C>(s: Pass<C>, pins: set<C>, c: C, x: C, fails: bool)
    requires PassInv(s) && Passable(s) && x in s.todo && Pending(s.w, pins, c)
    requires Passable(Turn(s, x, fails)) && s.w.t.live - {x} <= Turn(s, x, fails).w.t.live
    requires !(s.w.t.items[c] <= Turn(s, x, fails).w.t.live)
    ensures Passable(At(s, Also(s.w, pins + {c})))
    ensures var s1 := Turn(s, x, fails);
            var p := s.w.t.parent[c];
            p in s1.w.t.live && Turn(At(s, Also(s.w, pins + {c})), x, fails) == At(s1, Also(Release(s1.w, p), pins))
  {
    ChildrenLive(s.w.t, c);
    assert x in s.w.t.items[c];
    assert ChildRight(s.w.t, x);
    TurnAt(s, s.w, x, fails);
    TurnAt(s, Also(s.w, pins + {c}), x, fails);
    ReclaimOfChild(s.w, pins, c, x);
  }

  // ---------------------------------------------------------------------------------------
  // The whole call
  // ---------------------------------------------------------------------------------------

  lemma {:induction false} ReleaseFree<C>(w: World<C>, more: set<C>, p: C)
    requires Shape(w.t) && w.refs.Keys == w.t.live && p in w.t.live
    ensures Release(w.(free := w.free + more), p) == Release(w, p).(free := Release(w, p).free + more)
    decreases w.t.depth[p]
  {
    assert w.free + more + {p} == w.free + {p} + more;
    if p in w.t.parent && p in w.held && w.refs[p] - 1 == Min(w.t, p) {
      assert ChildRight(w.t, p);
      ReleaseFree(TryToAdd(w.(refs := w.refs[p := w.refs[p] - 1]), p), more, w.t.parent[p]);
    }
  }

  lemma FormedAlso<C>(w: World<C>, pins: set<C>)
    requires Formed(w)
    ensures Formed(Also(w, pins))
  {
  }

  /** A clean-up with c and pins still pinning their parents. */
  lemma CleanUpPinned<C>(w: World<C>, pins: set<C>, c: C, cfg: Settings, force: bool, order: seq<(C, bool)>)
    requires Inv(w) && Formed(w) && Pending(w, pins, c) && Enumerates(order, w.free)
    requires Undisturbed(w.t, CleanUp(w, cfg, force, order).0.t, pins)
    ensures Formed(Also(w, pins + {c}))
    ensures var (w', n) := CleanUp(w, cfg, force, order);
            && w.t.parent[c] in w'.t.live
            && CleanUp(Also(w, pins + {c}), cfg, force, order) ==
               (if w.t.items[c] <= w'.t.live then Also(w', pins + {c}) else Also(Release(w', w.t.parent[c]), pins), n)
  {
    FormedAlso(w, pins + {c});
    if Declines(cfg, force, |w.free|) {
      ChildrenLive(w.t, c);
    } else {
      PassStarts(w);
      var s := Pass(w.(free := {}), w.free, {}, 0);
      PendingFree(w, pins, c);
      LoopPinned(s, pins, c, order, cfg.maxAtOnce);
      var s' := Loop(s, order, cfg.maxAtOnce);
      ReleaseFree(s'.w, s'.rejects, w.t.parent[c]);
      assert Also(w, pins + {c}).(free := {}) == Also(w.(free := {}), pins + {c});
    }
  }

  lemma PendingFree<C>(w: World<C>, pins: set<C>, c: C)
    requires Formed(w) && Pending(w, pins, c)
    ensures Formed(w.(free := {})) && Pending(w.(free := {}), pins, c)
  {
    SameClients(w, w.(free := {}), w.t.parent[c]);
  }

  /** What a release that lists c hands to the pass: the world with c's pin written off, and the pin. */
  lemma ListedIsUnpinned<C>(w: World<C>, c: C)
    requires Inv(w) && Formed(w) && c in w.t.live && Clients(w, c) > 0 && Lists(w, c)
    ensures Inv(Unpinned(w, c)) && Formed(Unpinned(w, c)) && Pending(Unpinned(w, c), {}, c)
    ensures TryToAdd(w.(refs := w.refs[c := w.refs[c] - 1]), c) == Also(Unpinned(w, c), {c})
  {
    ReleasePinned(w, c);
    UnpinnedIs(w, c);
    assert w.held - {c} + {c} == w.held;
  }

  /** The pass that a release of c starts while c still pins its parent is the pass with the pin
      written off, and the release of the parent as well exactly when a child of c was taken. */
  lemma OwnPassIs<C>(w: World<C>, c: C, cfg: Settings, order: seq<(C, bool)>)
    requires Inv(w) && Formed(w) && c in w.t.live && Clients(w, c) > 0 && Lists(w, c)
    requires Enumerates(order, Unpinned(w, c).free)
    ensures var v := TryToAdd(w.(refs := w.refs[c := w.refs[c] - 1]), c);
            Formed(v) && v.free == Unpinned(w, c).free && Formed(Unpinned(w, c))
    ensures var v := TryToAdd(w.(refs := w.refs[c := w.refs[c] - 1]), c);
            var p := w.t.parent[c];
            var w' := CleanUp(Unpinned(w, c), cfg, false, order).0;
            && p in w'.t.live
            && CleanUp(v, cfg, false, order).0 ==
               if w.t.items[c] <= w'.t.live then w'.(held := w'.held + {c}) else Release(w', p)
  {
    hide Inv, CleanUp, Enumerates, Release;
    ListedIsUnpinned(w, c);
    CleanUpPinned(Unpinned(w, c), {}, c, cfg, false, order);
    var p, w' := w.t.parent[c], CleanUp(Unpinned(w, c), cfg, false, order).0;
    assert {} + {c} == {c};
    assert Also(Release(w', p), {}) == Release(w', p) by {
      assert Release(w', p).held + {} == Release(w', p).held;
    }
  }
}
