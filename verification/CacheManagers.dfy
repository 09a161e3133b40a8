/** Contexts and the cache manager as objects: every method does to the heap what FreeList and
    FreeListPass say it does to the world. */
module CacheManagers {
  import opened FreeList
  import opened FreeListPass
  import opened PinnedPass
  import opened AutomaticCleaning

  class Context {
    var refCount: int
    var parent: Context?
    var items: set<Context>
    var weAreInFreeList: bool
    var holdingReferenceToParentContext: bool
    var numberOfSubContexts: int
    const kind: Kind

    /** A context as its constructor leaves it: flagged, with the one reference of its owner. */
    constructor (parent: Context?, kind: Kind)
      ensures this.parent == parent && this.kind == kind && refCount == 1 && items == {}
      ensures weAreInFreeList && !holdingReferenceToParentContext && numberOfSubContexts == 0
    {
      refCount, this.parent, items, this.kind := 1, parent, {}, kind;
      weAreInFreeList, holdingReferenceToParentContext, numberOfSubContexts := true, false, 0;
    }

    function Seen(): Fields
      reads this
    {
      Fields(refCount, parent, items, weAreInFreeList, holdingReferenceToParentContext, numberOfSubContexts, kind)
    }

    function GetMinimumReferenceCount(): (n: int)
      reads this
    {
      1 + |items|
    }

    predicate IsReClaimable()
      reads this
    {
      !(refCount > GetMinimumReferenceCount())
    }

    method RemoveOurselfFromFreeList(m: CacheManager)
      requires m.Ready() && this in m.world.t.live
      modifies m`freelist, m`world, this`weAreInFreeList
      ensures m.Ready() && m.world == Unlist(old(m.world), this)
    {
      assert m.Mirrors(this);
      if weAreInFreeList {
        weAreInFreeList := false;
        m.RemoveFromFreeList(this);
        m.world := Unlist(m.world, this);
        forall x | x in m.world.t.live
          ensures m.Mirrors(x)
        {
          assert old(m.Mirrors(x));
        }
      }
    }

    /** The parent's entry for a child. */
    method AddItem(child: Context)
      modifies this`items, this`numberOfSubContexts
      ensures items == old(items) + {child} && numberOfSubContexts == old(numberOfSubContexts) + 1
    {
      items := items + {child};
      numberOfSubContexts := numberOfSubContexts + 1;
    }

    /** The count as the base class keeps it. */
    method SetCount(m: CacheManager, n: int)
      requires m.Ready() && this in m.world.t.live
      modifies m`world, this`refCount
      ensures m.Ready() && m.world == old(m.world).(refs := old(m.world).refs[this := n])
    {
      refCount := n;
      m.world := m.world.(refs := m.world.refs[this := n]);
      forall x | x in m.world.t.live
        ensures m.Mirrors(x)
      {
        assert old(m.Mirrors(x));
      }
    }

    method SetHolding(m: CacheManager, held: bool)
      requires m.Ready() && this in m.world.t.live
      modifies m`world, this`holdingReferenceToParentContext
      ensures m.Ready()
      ensures m.world == old(m.world).(held := if held then old(m.world).held + {this} else old(m.world).held - {this})
    {
      holdingReferenceToParentContext := held;
      m.world := m.world.(held := if held then m.world.held + {this} else m.world.held - {this});
      forall x | x in m.world.t.live
        ensures m.Mirrors(x)
      {
        assert old(m.Mirrors(x));
      }
    }

    method AddRef(m: CacheManager)
      requires m.Ready() && this in m.world.t.live
      modifies m`freelist, m`world, m.world.t.live
      ensures m.Ready() && m.world == Acquire(old(m.world), this)
      decreases m.world.t.depth[this]
    {
      hide ChildRight, Shape;
      ghost var w := m.world;
      assert m.Mirrors(this);
      if refCount == GetMinimumReferenceCount() {
        RemoveOurselfFromFreeList(m);
        if parent != null && !holdingReferenceToParentContext {
          ParentAbove(w.t, this);
          AcquireAbove(m.world, parent, this);
          parent.AddRef(m);
          SetHolding(m, true);
        }
      }
      assert m.Mirrors(this);
      SetCount(m, refCount + 1);
    }

    /** orders are those in which the passes that may start are handed the list; what is left of
        them comes back. */
    method TryToAddOurselfToFreeList(m: CacheManager, orders: seq<seq<(Context, bool)>>)
        returns (left: seq<seq<(Context, bool)>>)
      requires m.Ready() && this in m.world.t.live
      requires Starts(m.world, this, m.Cfg()) ==> orders != [] && Enumerates(orders[0], TryToAdd(m.world, this).free)
      modifies m`freelist, m`world, m`ignoring, m.world.t.live
      ensures m.Ready() && m.ignoring == old(m.ignoring)
      ensures old(!Starts(m.world, this, m.Cfg())) ==> m.world == TryToAdd(old(m.world), this) && left == orders
      ensures old(Starts(m.world, this, m.Cfg())) ==>
                && orders != [] && left == orders[1..]
                && m.world == FreeListPass.CleanUp(TryToAdd(old(m.world), this), old(m.Cfg()), false, orders[0]).0
      decreases m.Level(), 2, 0
    {
      left := orders;
      assert m.Mirrors(this);
      if weAreInFreeList {
        return;
      }
      if parent == null {
        if kind.metadata {
          if items == {} && IsReClaimable() {
            m.AddToFreeList(this);
          }
        }
        return;
      }
      if !IsReClaimable() {
        return;
      }
      m.AddToFreeList(this);
      if numberOfSubContexts != 0 {
        left := m.AutoClean(orders);
      }
    }

    /** waiting are the contexts whose Release has called this one. The code is defined as long as
        no pass takes one of them or this. */
    method Release(m: CacheManager, orders: seq<seq<(Context, bool)>>, ghost waiting: set<Context>)
        returns (left: seq<seq<(Context, bool)>>)
      requires m.Ready() && this in m.world.t.live
      requires Releasing(m.world, this, waiting, m.Cfg(), orders).Returned?
      modifies m`freelist, m`world, m`ignoring, m.world.t.live
      ensures m.Ready() && m.ignoring == old(m.ignoring)
      ensures Returned(m.world, left) == Releasing(old(m.world), this, waiting, old(m.Cfg()), orders)
      decreases m.Level(), 3, m.world.t.depth[this], 1
    {
      hide Shape, Releasing, Ascending, Starts, TryToAdd, FreeListPass.CleanUp, Enumerates, Shrunk;
      ghost var w, cfg := m.world, m.Cfg();
      OfferedForms(w, this);
      left := orders;
      assert m.Mirrors(this);
      SetCount(m, refCount - 1);
      assert m.Mirrors(this);
      if refCount == GetMinimumReferenceCount() {
        if IsReClaimable() {
          ReleaseGoes(w, this, waiting, cfg, orders);
          left := TryToAddOurselfToFreeList(m, orders);
          left := LetParentGo(m, left, waiting);
        }
      } else {
        ReleaseStays(w, this, waiting, cfg, orders);
      }
    }

    /** The last step of a release: the pin goes, once the parent is released. */
    method LetParentGo(m: CacheManager, orders: seq<seq<(Context, bool)>>, ghost waiting: set<Context>)
        returns (left: seq<seq<(Context, bool)>>)
      requires m.Ready() && this in m.world.t.live
      requires Ascending(m.world, this, waiting, m.Cfg(), orders).Returned?
      modifies m`freelist, m`world, m`ignoring, m.world.t.live
      ensures m.Ready() && m.ignoring == old(m.ignoring)
      ensures Returned(m.world, left) == Ascending(old(m.world), this, waiting, old(m.Cfg()), orders)
      decreases m.Level(), 3, m.world.t.depth[this], 0
    {
      hide Shape, Releasing, Shrunk;
      left := orders;
      assert m.Mirrors(this);
      if parent != null && holdingReferenceToParentContext {
        AscendingGoes(m.world, this, waiting, m.Cfg(), orders);
        left := parent.Release(m, orders, waiting + {this});
        SetHolding(m, false);
      }
    }

    /** The child's entry is dropped while a thousand temporary references keep it from being
        freed early; then the child drops its handle on this parent. The number of children goes
        down with the entry and up again. */
    method ReclaimContextObject(m: CacheManager, child: Context, orders: seq<seq<(Context, bool)>>)
        returns (ok: bool, left: seq<seq<(Context, bool)>>)
      requires m.Ready() && child in m.world.t.live
      requires child in m.world.t.parent && m.world.t.parent[child] == this
      requires m.world.refs[child] <= Min(m.world.t, child) ==>
                 m.world.t.items[child] == {} && Reclaiming(m.world, child, m.Cfg(), orders).Returned?
      modifies m`freelist, m`world, m`ignoring, m.world.t.live
      ensures m.Ready() && m.ignoring == old(m.ignoring)
      ensures ok <==> old(m.world).refs[child] <= Min(old(m.world).t, child)
      ensures !ok ==> m.world == old(m.world) && left == orders
      ensures ok ==> old(m.world).t.items[child] == {} &&
                     Returned(m.world, left) == Reclaiming(old(m.world), child, old(m.Cfg()), orders)
      decreases m.Level(), 4, 0
    {
      left := orders;
      assert m.Mirrors(child);
      if !child.IsReClaimable() {
        return false, left;
      }
      SeveredForms(m.world, child);
      Detach(m, child);
      left := Release(m, orders, {});
      return true, left;
    }

    /** The temporary references outlive the one that the parent's entry was. */
    method Orphan(m: CacheManager)
      modifies this, m`freelist
      ensures m.freelist == old(m.freelist) - {this} && parent == null && !weAreInFreeList
    {
      refCount := refCount + 1000;
      refCount := refCount - 1;
      m.RemoveFromFreeList(this);
      parent := null;
    }

    method Detach(m: CacheManager, child: Context)
      requires m.Ready() && child in m.world.t.live && this in m.world.t.live && this != child
      requires child in m.world.t.parent && m.world.t.parent[child] == this
      requires m.world.t.items[child] == {} && Shape(Cut(m.world.t, child))
      modifies m`freelist, m`world, this, child
      ensures m.Ready() && m.ignoring == old(m.ignoring)
      ensures m.world == old(Severed(m.world, child))
    {
      ghost var t := m.world.t;
      hide Shape, ChildRight, Cut;
      assert m.Mirrors(child) && m.Mirrors(this);
      items := items - {child};
      child.Orphan(m);
      m.world := World(Cut(m.world.t, child), m.world.refs - {child}, m.world.held,
                       m.world.flag - {child}, m.world.free - {child});
      CutKeys(t, child);
      CutAt(t, child, this);
      assert m.Mirrors(this);
      forall x | x in m.world.t.live && x != this
        ensures m.Mirrors(x)
      {
        assert old(m.Mirrors(x));
        CutAt(t, child, x);
      }
    }
  }

  /** A release that returns and that makes c idle: the offer, and the way up. */
  lemma ReleaseGoes<C>(w: World<C>, c: C, waiting: set<C>, cfg: Settings, orders: seq<seq<(C, bool)>>)
    requires Formed(w) && c in w.t.live && Releasing(w, c, waiting, cfg, orders).Returned?
    requires w.refs[c] - 1 == Min(w.t, c)
    ensures Playable(w, c, cfg, orders)
    ensures var left := if Starts(Offered(w, c), c, cfg) then orders[1..] else orders;
            Releasing(w, c, waiting, cfg, orders) == Ascending(Passed(w, c, cfg, orders), c, waiting, cfg, left)
    ensures var w' := Passed(w, c, cfg, orders);
            c in w'.t.live && w'.t.live <= w.t.live && w'.t.depth.Keys == w'.t.live && w'.t.depth[c] == w.t.depth[c]
  {
    hide Passed, Starts, Enumerates, TryToAdd;
  }

  lemma ReleaseStays<C>(w: World<C>, c: C, waiting: set<C>, cfg: Settings, orders: seq<seq<(C, bool)>>)
    requires Formed(w) && c in w.t.live && w.refs[c] - 1 != Min(w.t, c)
    ensures Releasing(w, c, waiting, cfg, orders) == Returned(Offered(w, c), orders)
  {
  }

  lemma OfferedForms<C>(w: World<C>, c: C)
    requires Formed(w) && c in w.t.live
    ensures Formed(Offered(w, c)) && Formed(Listing(w, c))
  {
  }

  /** The way up, where there is one. */
  lemma AscendingGoes<C>(w: World<C>, c: C, waiting: set<C>, cfg: Settings, orders: seq<seq<(C, bool)>>)
    requires Formed(w) && Ascending(w, c, waiting, cfg, orders).Returned? && c in w.t.parent && c in w.held
    ensures waiting + {c} <= w.t.live && w.t.parent[c] in w.t.live && w.t.depth[w.t.parent[c]] < w.t.depth[c]
    ensures var up := Releasing(w, w.t.parent[c], waiting + {c}, cfg, orders);
            && up.Returned? && c in up.w.t.live
            && Ascending(w, c, waiting, cfg, orders) == Returned(up.w.(held := up.w.held - {c}), up.left)
  {
    hide Releasing;
    ParentNearer(w.t, w.t, c);
    WaitersAreKept(w, w.t.parent[c], waiting + {c}, cfg, orders);
  }

  /** The world without the child c, whose handle on its parent is still to be given up. */
  function Severed<C(==)>(w: World<C>, c: C): World<C>
    requires c in w.t.parent && w.t.parent[c] in w.t.items
  {
    World(Cut(w.t, c), w.refs - {c}, w.held, w.flag - {c}, w.free - {c})
  }

  lemma SeveredForms<C>(w: World<C>, c: C)
    requires Formed(w) && c in w.t.parent && w.t.items[c] == {}
    ensures w.t.parent[c] in w.t.items && Formed(Severed(w, c)) && w.t.parent[c] in Severed(w, c).t.live
    ensures w.t.parent[c] != c
  {
    assert ChildRight(w.t, c);
    CutKeepsShape(w.t, c);
  }

  /** Reclaiming a child, with the passes that the release of its parent may start. */
  ghost function Reclaiming<C>(w: World<C>, c: C, cfg: Settings, orders: seq<seq<(C, bool)>>): Outcome<C>
    requires Formed(w) && c in w.t.parent && w.t.items[c] == {}
  {
    SeveredForms(w, c);
    Releasing(Severed(w, c), w.t.parent[c], {}, cfg, orders)
  }

  /** Inside a pass no other starts, and reclaiming is what the pass takes it for. */
  lemma QuietReclaim<C>(w: World<C>, c: C, cfg: Settings, orders: seq<seq<(C, bool)>>)
    requires Formed(w) && c in w.t.parent && w.t.items[c] == {} && cfg.busy
    ensures Reclaiming(w, c, cfg, orders) == Returned(Reclaim(w, c), orders)
  {
    SeveredForms(w, c);
    QuietRelease(Severed(w, c), w.t.parent[c], {}, cfg, orders);
  }

  /** The fields of a context as one value. */
  datatype Fields = Fields(refCount: int, parent: Context?, items: set<Context>, listed: bool, holding: bool,
                           children: int, kind: Kind)

  /** The world says of c what f says. */
  ghost predicate Shows(w: World<Context>, c: Context, f: Fields)
    requires c in w.t.items && c in w.refs
  {
    && f.refCount == w.refs[c] && f.items == w.t.items[c]
    && (if f.parent == null then c !in w.t.parent else c in w.t.parent && w.t.parent[c] == f.parent)
    && (f.listed <==> c in w.flag) && (f.holding <==> c in w.held)
    && f.children >= 0 && (f.children != 0 <==> c in w.t.counting)
    && (f.kind.supports <==> c in w.t.supports) && (f.kind.overmounted <==> c in w.t.overmounted)
    && (f.kind.metadata <==> c in w.t.metadata)
  }

  /** The world with the new child k of p in it. */
  function Attached(w: World<Context>, p: Context, k: Context): World<Context>
    requires p in w.t.items && p in w.t.depth
  {
    World(Grown(w.t, p, k, k.kind), w.refs[k := 1], w.held, w.flag + {k}, w.free + {k})
  }

  lemma GrownShows(w: World<Context>, p: Context, k: Context, x: Context, f: Fields)
    requires w.t.items.Keys == w.t.depth.Keys == w.t.live == w.refs.Keys
    requires p in w.t.live && k !in w.t.live && x in w.t.live && Shows(w, x, f)
    ensures x in Attached(w, p, k).t.items && x in Attached(w, p, k).refs
    ensures Shows(Attached(w, p, k), x, if x == p then f.(items := f.items + {k}, children := f.children + 1) else f)
  {
    GrownAt(w.t, p, k, k.kind, x);
  }

  lemma GrownLeaf(w: World<Context>, p: Context, k: Context)
    requires Formed(w) && p in w.t.live && k !in w.t.live
    requires k !in w.held && k !in w.t.supports && k !in w.t.overmounted && k !in w.t.metadata && k !in w.t.counting
    ensures var w' := Attached(w, p, k);
            && Formed(w') && w'.t.items.Keys == w'.t.depth.Keys == w'.refs.Keys == w'.t.live
            && w'.t.live == w.t.live + {k} && w'.free == w.free + {k}
            && Shows(w', k, Fields(1, p, {}, true, false, 0, k.kind))
  {
    GrownKeepsShape(w.t, p, k, k.kind);
    GrownKeys(w.t, p, k, k.kind);
  }

  lemma ParentAbove<C>(t: Tree<C>, c: C)
    requires Shape(t) && c in t.parent
    ensures c in t.live && t.parent[c] in t.live && t.depth[c] == t.depth[t.parent[c]] + 1
  {
    assert ChildRight(t, c);
  }

  lemma {:induction false} AcquireAbove<C>(w: World<C>, p: C, c: C)
    requires Shape(w.t) && w.refs.Keys == w.t.live && p in w.t.live && c in w.t.live && w.t.depth[p] < w.t.depth[c]
    ensures Acquire(w, p).refs[c] == w.refs[c]
    decreases w.t.depth[p]
  {
    if p in w.t.parent && w.refs[p] == Min(w.t, p) && p !in w.held {
      assert ChildRight(w.t, p);
      AcquireAbove(Unlist(w, p), w.t.parent[p], c);
    }
  }

  /** Acquiring takes nobody onto the list and lets only live contexts pin their parents. */
  lemma {:induction false} AcquireWithin<C>(w: World<C>, p: C)
    requires Shape(w.t) && w.refs.Keys == w.t.live && p in w.t.live
    ensures Acquire(w, p).flag <= w.flag && Acquire(w, p).free <= w.free && Acquire(w, p).held <= w.held + w.t.live
    decreases w.t.depth[p]
  {
    if p in w.t.parent && w.refs[p] == Min(w.t, p) && p !in w.held {
      assert ChildRight(w.t, p);
      AcquireWithin(Unlist(w, p), w.t.parent[p]);
    }
  }

  /** What is left of the tree without c, as seen from x. */
  lemma CutAt<C>(t: Tree<C>, c: C, x: C)
    requires c in t.parent && t.parent[c] in t.items && x in t.items && x != c
    ensures var t' := Cut(t, c);
            && x in t'.items && t'.items[x] == (if x == t.parent[c] then t.items[x] - {c} else t.items[x])
            && (x in t'.parent <==> x in t.parent) && (x in t.parent ==> t'.parent[x] == t.parent[x])
            && (x in t'.supports <==> x in t.supports) && (x in t'.overmounted <==> x in t.overmounted)
            && (x in t'.metadata <==> x in t.metadata) && (x in t'.counting <==> x in t.counting)
  {
  }

  /** The grown tree, as seen from the new leaf and from anybody else. */
  lemma GrownKeys<C>(t: Tree<C>, p: C, k: C, kind: Kind)
    requires t.items.Keys == t.depth.Keys == t.live && p in t.live && k !in t.live
    requires k !in t.supports && k !in t.overmounted && k !in t.metadata && k !in t.counting
    ensures var t' := Grown(t, p, k, kind);
            && t'.live == t.live + {k} == t'.items.Keys == t'.depth.Keys
            && t'.items[k] == {} && k in t'.parent && t'.parent[k] == p
            && (k in t'.supports <==> kind.supports) && (k in t'.overmounted <==> kind.overmounted)
            && (k in t'.metadata <==> kind.metadata) && k !in t'.counting
  {
  }

  lemma GrownAt<C>(t: Tree<C>, p: C, k: C, kind: Kind, x: C)
    requires t.items.Keys == t.depth.Keys == t.live && p in t.live && k !in t.live && x in t.live
    ensures var t' := Grown(t, p, k, kind);
            && x in t'.items && t'.items[x] == (if x == p then t.items[x] + {k} else t.items[x])
            && (x in t'.parent <==> x in t.parent) && (x in t.parent ==> t'.parent[x] == t.parent[x])
            && (x in t'.supports <==> x in t.supports) && (x in t'.overmounted <==> x in t.overmounted)
            && (x in t'.metadata <==> x in t.metadata) && (x in t'.counting <==> x in t.counting || x == p)
  {
  }

  lemma CutKeys<C>(t: Tree<C>, c: C)
    requires c in t.parent && t.parent[c] in t.items && t.items.Keys == t.depth.Keys == t.live
    ensures Cut(t, c).live == t.live - {c} && Cut(t, c).items.Keys == Cut(t, c).depth.Keys == t.live - {c}
  {
  }

  /** What a call that does not decline comes to. */
  lemma WholePass<C>(w: World<C>, cfg: Settings, force: bool, order: seq<(C, bool)>)
    requires Formed(w) && Enumerates(order, w.free) && !Declines(cfg, force, |w.free|)
    ensures Passable(Pass(w.(free := {}), w.free, {}, 0)) && w.free <= w.t.live
    ensures var s := Loop(Pass(w.(free := {}), w.free, {}, 0), order, cfg.maxAtOnce);
            FreeListPass.CleanUp(w, cfg, force, order) == (s.w.(free := s.w.free + s.rejects), s.ret)
  {
    hide Loop, Enumerates;
    PassStarts(w);
  }

  /** Clearing the flag of a context that is about to go changes nothing afterwards. */
  lemma FlagGoesToo<C>(w: World<C>, c: C)
    requires Shape(w.t) && w.refs.Keys == w.t.live && c in w.t.live && w.t.items[c] == {}
    ensures c !in w.t.parent ==> Deleted(w.(flag := w.flag - {c}), c) == Deleted(w, c)
    ensures c in w.t.parent ==> Reclaim(w.(flag := w.flag - {c}), c) == Reclaim(w, c)
  {
    assert w.flag - {c} - {c} == w.flag - {c};
  }

  class CacheManager {
    var freelist: set<Context>
    var maxNumberOfContextsToFreeAtOnce: int
    var maxNumberOfContextsInFreeList: int
    var numberOfAllowedPermanentContextsInFreeList: int
    var autoCleanUpCall: bool
    var insideResolveCall: bool
    var ignoring: bool
    ghost var world: World<Context>

    /** What the world says of a live context is what its fields say. */
    ghost predicate Mirrors(c: Context)
      requires c in world.t.items && c in world.refs
      reads this`world, c
    {
      Shows(world, c, c.Seen())
    }

    ghost predicate Ready()
      reads this`world, this`freelist, world.t.live
    {
      && Formed(world) && world.t.items.Keys == world.t.depth.Keys == world.refs.Keys == world.t.live
      && freelist == world.free
      && forall c {:trigger Mirrors(c)} :: c in world.t.live ==> Mirrors(c)
    }

    /** Making a child context: it is listed as it is made, its handle on its parent is a
        reference there, and the parent's entry is the child's own reference. */
    method Insert(p: Context, kind: Kind) returns (k: Context)
      requires Ready() && p in world.t.live
      modifies this`freelist, this`world, world.t.live
      ensures Ready() && fresh(k) && world == Discover(old(world), p, k, kind)
    {
      hide Shape, Acquire;
      AcquireWithin(world, p);
      k := new Context(p, kind);
      p.AddRef(this);
      Attach(p, k);
    }

    method Attach(p: Context, k: Context)
      requires Ready() && p in world.t.live && k !in world.t.live
      requires k.parent == p && k.refCount == 1 && k.items == {}
      requires k.weAreInFreeList && !k.holdingReferenceToParentContext && k.numberOfSubContexts == 0
      requires k !in world.flag && k !in world.held && k !in world.t.counting
      requires k !in world.t.supports && k !in world.t.overmounted && k !in world.t.metadata
      modifies this`freelist, this`world, p`items, p`numberOfSubContexts
      ensures Ready()
      ensures world == Attached(old(world), p, k)
    {
      hide Formed, Attached, Shows;
      ghost var w := world;
      GrownLeaf(w, p, k);
      ghost var f := p.Seen();
      assert Mirrors(p);
      p.AddItem(k);
      Grow(p, k);
      assert p.Seen() == f.(items := f.items + {k}, children := f.children + 1);
      forall x | x in w.t.live
        ensures Mirrors(x)
      {
        assert old(Mirrors(x));
        GrownShows(w, p, k, x, old(x.Seen()));
      }
    }

    method Grow(p: Context, k: Context)
      requires p in world.t.items && p in world.t.depth
      modifies this`freelist, this`world
      ensures freelist == old(freelist) + {k} && world == Attached(old(world), p, k)
    {
      freelist := freelist + {k};
      world := Attached(world, p, k);
    }

    method RemoveFromFreeList(c: Context)
      modifies this`freelist, c`weAreInFreeList
      ensures !c.weAreInFreeList && freelist == old(freelist) - {c}
    {
      c.weAreInFreeList := false;
      freelist := freelist - {c};
    }

    method AddToFreeList(c: Context)
      requires Ready() && c in world.t.live
      modifies this`freelist, this`world, c`weAreInFreeList
      ensures Ready() && world == old(world).(flag := old(world).flag + {c}, free := old(world).free + {c})
    {
      c.weAreInFreeList := true;
      freelist := freelist + {c};
      world := world.(flag := world.flag + {c}, free := world.free + {c});
      forall x | x in world.t.live
        ensures Mirrors(x)
      {
        assert old(Mirrors(x));
      }
    }

    function Level(): nat
      reads this`ignoring
    {
      if ignoring then 0 else 1
    }

    function Cfg(): Settings
      reads this
    {
      Settings(maxNumberOfContextsToFreeAtOnce, maxNumberOfContextsInFreeList,
               numberOfAllowedPermanentContextsInFreeList, insideResolveCall, ignoring, autoCleanUpCall)
    }

    /** Whether an unforced clean-up is called and does anything. */
    predicate Cleans()
      reads this
    {
      autoCleanUpCall && !Declines(Cfg(), false, |freelist|)
    }

    method AutoClean(orders: seq<seq<(Context, bool)>>) returns (left: seq<seq<(Context, bool)>>)
      requires Ready()
      requires Cleans() ==> orders != [] && Enumerates(orders[0], world.free)
      modifies this`freelist, this`world, this`ignoring, world.t.live
      ensures Ready() && ignoring == old(ignoring)
      ensures old(!Cleans()) ==> world == old(world) && left == orders
      ensures old(Cleans()) ==>
                && orders != [] && left == orders[1..]
                && world == FreeListPass.CleanUp(old(world), old(Cfg()), false, orders[0]).0
      ensures !autoCleanUpCall || old(insideResolveCall || ignoring) ==> world == old(world) && left == orders
      ensures autoCleanUpCall && old(!insideResolveCall && !ignoring) && maxNumberOfContextsToFreeAtOnce <= 0 &&
              (orders != [] ==> NoneFails(orders[0])) ==>
                forall c {:trigger ListedLeaf(old(world), c)} :: ListedLeaf(old(world), c) ==>
                  (c !in world.t.live <==>
                   && old(maxNumberOfContextsInFreeList <= 0 || |freelist| > maxNumberOfContextsInFreeList)
                   && old(numberOfAllowedPermanentContextsInFreeList <= 0 ||
                          |freelist| > numberOfAllowedPermanentContextsInFreeList))
      decreases Level(), 1, 0
    {
      left := if Cleans() then orders[1..] else orders;
      if autoCleanUpCall {
        var n := CleanUp(false, if Cleans() then orders[0] else []);
      }
    }

    /** Deleting the root of a metadata tree that is out of use. */
    method Delete(c: Context)
      requires Ready() && c in world.t.live && c !in world.t.parent && world.t.items[c] == {}
      modifies this`freelist, this`world, c
      ensures Ready() && world == Deleted(old(world), c)
    {
      assert Mirrors(c);
      CutKeepsShape(world.t, c);
      RemoveFromFreeList(c);
      world := Deleted(world, c);
      forall x | x in world.t.live
        ensures Mirrors(x)
      {
        assert old(Mirrors(x));
      }
    }

    method SetFlag(c: Context, flag: bool)
      requires Ready() && c in world.t.live
      modifies this`world, c`weAreInFreeList
      ensures Ready()
      ensures world == old(world).(flag := if flag then old(world).flag + {c} else old(world).flag - {c})
    {
      c.weAreInFreeList := flag;
      world := world.(flag := if flag then world.flag + {c} else world.flag - {c});
      forall x | x in world.t.live
        ensures Mirrors(x)
      {
        assert old(Mirrors(x));
      }
    }

    /** The body of the loop for one context: whether it goes back on the list, and what it adds
        to the count. fails says that reclaiming it throws. */
    method CleanOne(c: Context, fails: bool, ghost s: Pass<Context>) returns (rejected: bool, n: nat)
      requires Ready() && ignoring && Passable(s) && s.w == world && c in s.todo && c in world.t.live
      modifies this`freelist, this`world, this`ignoring, world.t.live
      ensures Ready() && ignoring
      ensures Pass(world, s.todo - {c}, if rejected then s.rejects + {c} else s.rejects, s.ret + n) == Turn(s, c, fails)
      decreases Level(), 5, 0
    {
      hide Counted, Idle, Right, Pins, FreeList.Release, ChildRight;
      assert Mirrors(c);
      if c.items == {} {
        FlagGoesToo(world, c);
      }
      rejected, n := false, 0;
      SetFlag(c, false);
      assert Mirrors(c);
      if c.parent == null {
        if c.kind.metadata {
          if c.items != {} {
            return;
          }
          n := 1;
          Delete(c);
        }
        return;
      }
      if c.kind.overmounted || !c.kind.supports {
        return;
      }
      if c.items != {} || c.refCount > c.GetMinimumReferenceCount() || fails {
        SetFlag(c, true);
        rejected := true;
        return;
      }
      QuietReclaim(world, c, Cfg(), []);
      var ok, left := c.parent.ReclaimContextObject(this, c, []);
      n := 1;
    }

    /** A call while another is at work, or inside a resolve, or below the limits, changes
        nothing; any other call is the whole pass. order is the order in which the hash set
        hands its contexts out, and says whose reclaim throws. */
    method CleanUp(force: bool, order: seq<(Context, bool)>) returns (ret: nat)
      requires Ready()
      requires !Declines(Cfg(), force, |freelist|) ==> Enumerates(order, world.free)
      modifies this`freelist, this`world, this`ignoring, world.t.live
      ensures Ready() && ignoring == old(ignoring)
      ensures old(Declines(Cfg(), force, |freelist|)) ==> world == old(world) && ret == 0
      ensures old(!Declines(Cfg(), force, |freelist|)) ==>
                (world, ret) == FreeListPass.CleanUp(old(world), old(Cfg()), force, order)
      ensures old(insideResolveCall || ignoring) ==> world == old(world) && ret == 0
      ensures old(!force && 0 < maxNumberOfContextsInFreeList && |freelist| <= maxNumberOfContextsInFreeList) ||
              old(0 < numberOfAllowedPermanentContextsInFreeList &&
                  |freelist| <= numberOfAllowedPermanentContextsInFreeList) ==>
                world == old(world) && ret == 0
      ensures old(!insideResolveCall && !ignoring) && maxNumberOfContextsToFreeAtOnce <= 0 && NoneFails(order) ==>
                forall c {:trigger ListedLeaf(old(world), c)} :: ListedLeaf(old(world), c) ==>
                  (c !in world.t.live <==>
                   && old(force || maxNumberOfContextsInFreeList <= 0 || |freelist| > maxNumberOfContextsInFreeList)
                   && old(numberOfAllowedPermanentContextsInFreeList <= 0 ||
                          |freelist| > numberOfAllowedPermanentContextsInFreeList))
      decreases Level(), 0, 0
    {
      hide Shape, CacheManager.Mirrors, Enumerates, FreeListPass.CleanUp;
      ret := 0;
      if insideResolveCall {
        return;
      }
      ghost var cfg := Cfg();
      var wasAlreadySet := ignoring;
      ignoring := true;
      if wasAlreadySet {
        return;
      }
      var ctxlistsize := |freelist|;
      if !force && maxNumberOfContextsInFreeList > 0 && ctxlistsize <= maxNumberOfContextsInFreeList {
        ignoring := wasAlreadySet;
        return;
      }
      if numberOfAllowedPermanentContextsInFreeList > 0 {
        if ctxlistsize <= numberOfAllowedPermanentContextsInFreeList {
          ignoring := wasAlreadySet;
          return;
        }
      }
      LeavesGoTogether(world, cfg, force, order);
      ret := CleanList(order, cfg, force);
      ignoring := wasAlreadySet;
    }

    /** The list is copied and cleared, worked through, and refilled with what is rejected. */
    method CleanList(order: seq<(Context, bool)>, ghost cfg: Settings, ghost force: bool) returns (ret: nat)
      requires Ready() && ignoring && Enumerates(order, world.free)
      requires !Declines(cfg, force, |world.free|) && cfg.maxAtOnce == maxNumberOfContextsToFreeAtOnce
      modifies this`freelist, this`world, this`ignoring, world.t.live
      ensures Ready() && ignoring
      ensures (world, ret) == FreeListPass.CleanUp(old(world), cfg, force, order)
      decreases Level(), 7, 0
    {
      hide Shape, CacheManager.Mirrors, Loop, Turn, PassInv, Enumerates, FreeListPass.CleanUp;
      var ctxlist := freelist;
      WholePass(world, cfg, force, order);
      Clear();
      ghost var s := Pass(world, ctxlist, {}, 0);
      var rejects;
      ret, rejects := CleanAll(ctxlist, order, s);
      Refill(rejects);
    }

    method Clear()
      requires Ready()
      modifies this`freelist, this`world
      ensures Ready() && freelist == {} && world == old(world).(free := {})
    {
      freelist := {};
      world := world.(free := {});
      forall x | x in world.t.live
        ensures Mirrors(x)
      {
        assert old(Mirrors(x));
      }
    }

    method Refill(rejects: set<Context>)
      requires Ready() && rejects <= world.t.live
      modifies this`freelist, this`world
      ensures Ready() && world == old(world).(free := old(world).free + rejects)
    {
      freelist := freelist + rejects;
      world := world.(free := world.free + rejects);
      forall x | x in world.t.live
        ensures Mirrors(x)
      {
        assert old(Mirrors(x));
      }
    }

    /** The loop over the copied list. */
    method CleanAll(all: set<Context>, order: seq<(Context, bool)>, ghost s0: Pass<Context>)
      returns (ret: nat, rejects: set<Context>)
      requires Ready() && ignoring && s0 == Pass(world, all, {}, 0) && Passable(s0)
      requires Enumerates(order, all) && all <= world.t.live
      modifies this`freelist, this`world, this`ignoring, world.t.live
      ensures Ready() && ignoring
      ensures Pass(world, {}, rejects, ret) == Loop(s0, order, maxNumberOfContextsToFreeAtOnce)
      decreases Level(), 6, 0
    {
      hide PassInv, Turn, Shape, CacheManager.Mirrors;
      ret, rejects := 0, {};
      var ctxlist, i := all, 0;
      ghost var s := s0;
      while i < |order|
        invariant 0 <= i <= |order| && Ready() && ignoring
        invariant Passable(s) && s == Pass(world, ctxlist, rejects, ret)
        invariant Enumerates(order[i..], ctxlist) && ctxlist <= world.t.live
        invariant Loop(s, order[i..], maxNumberOfContextsToFreeAtOnce) ==
                  Loop(s0, order, maxNumberOfContextsToFreeAtOnce)
        invariant world.t.live <= old(world.t.live)
      {
        if maxNumberOfContextsToFreeAtOnce > 0 && ret >= maxNumberOfContextsToFreeAtOnce {
          rejects := rejects + ctxlist;
          return;
        }
        var c, fails := order[i].0, order[i].1;
        ctxlist := ctxlist - {c};
        TurnedIs(s, c, fails);
        var rejected, n := CleanOne(c, fails, s);
        s := Turn(s, c, fails);
        if rejected {
          rejects := rejects + {c};
        }
        ret := ret + n;
        i := i + 1;
      }
    }
  }
}
