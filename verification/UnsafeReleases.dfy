/** Releases that lose their context to a pass, or a reference: what makes the condition for a safe
    release an exact one. */
module UnsafeReleases {
  import opened FreeList
  import opened FreeListPass
  import opened FreeListClients
  import opened PinnedPass
  import opened AutomaticCleaning
  import opened SafeReleases

  // ---------------------------------------------------------------------------------------
  // Releases that lose their context
  // ---------------------------------------------------------------------------------------

  ghost function Whole<C>(t: Tree<C>, c: C): set<C>
    requires Shape(t)
  {
    set x | x in t.live && Below(t, x, c)
  }

  lemma ChildBelow<C>(t: Tree<C>, k: C, x: C, c: C)
    requires Shape(t) && x in t.live && k in t.items[x] && Below(t, x, c)
    ensures k in t.live && Below(t, k, c)
  {
    assert ChildRight(t, k);
    var n: nat :| Ancestor(t, x, n) == c;
    assert Ancestor(t, k, n + 1) == Ancestor(t, x, n);
  }

  /** Where nobody is forgotten, all there is below an idle context that nothing holds is listed. */
  lemma WholeIsListed<C>(w: World<C>, c: C)
    requires Inv(w) && Formed(w) && c in w.t.live && w.refs[c] == Min(w.t, c) && !Anchored(w.t, c)
    requires Complete(w)
    ensures Reclaimable(w, Whole(w.t, c)) && Whole(w.t, c) <= w.free && c in Whole(w.t, c)
  {
    assert Ancestor(w.t, c, 0) == c;
    forall x | x in Whole(w.t, c)
      ensures x in w.free && w.t.items[x] <= Whole(w.t, c) && !Unreclaimable(w.t, x) && Excess(w, x) <= 0
    {
      BelowIsIdle(w, x, c);
      forall k | k in w.t.items[x]
        ensures k in Whole(w.t, c)
      {
        ChildBelow(w.t, k, x, c);
      }
    }
  }

  /** A listed part of the tree that nothing holds may be taken by the pass that listing a starts,
      whoever still pins a parent. */
  lemma PartIsStruck<C>(w: World<C>, pins: set<C>, a: C, cfg: Settings, part: set<C>) returns (order: seq<(C, bool)>)
    requires Inv(w) && Formed(w) && a in w.t.live && Clients(w, a) > 0 && Lists(w, a) && a in w.t.counting
    requires cfg.automatic && !Declines(cfg, false, |Unpinned(w, a).free|) && Affords(cfg, part)
    requires Formed(Unpinned(w, a)) && Reclaimable(Unpinned(w, a), part) && part <= Unpinned(w, a).free
    ensures NoneFails(order) && Formed(Also(w, pins)) && Starts(Offered(Also(w, pins), a), a, cfg)
    ensures forall more :: Playable(Also(w, pins), a, cfg, [order] + more)
                           && part !! Passed(Also(w, pins), a, cfg, [order] + more).t.live
  {
    FormedAlso(w, pins);
    ListingAlso(w, pins, a, cfg);
    UnpinnedIs(w, a);
    var v := Also(Unpinned(w, a), pins + {a});
    FormedAlso(Unpinned(w, a), pins + {a});
    ReclaimableAlso(Unpinned(w, a), pins + {a}, part);
    order := PartMayGo(v, cfg, false, part);
    forall more
      ensures ([order] + more)[0] == order
    {
    }
  }

  lemma ReclaimableAlso<C>(w: World<C>, pins: set<C>, part: set<C>)
    requires Formed(w) && Formed(Also(w, pins)) && Reclaimable(w, part)
    ensures Reclaimable(Also(w, pins), part)
  {
    forall x | x in part
      ensures Excess(Also(w, pins), x) <= 0
    {
      assert x in w.t.live;
    }
  }

  /** Some order of the list has the pass take c away under the eyes of its own Release. */
  lemma WholeIsLost<C>(w: World<C>, pins: set<C>, c: C, cfg: Settings) returns (orders: seq<seq<(C, bool)>>)
    requires Inv(w) && Formed(w) && c in w.t.live && Clients(w, c) > 0 && Lists(w, c) && c in w.t.counting
    requires Complete(w)
    requires cfg.automatic && !Declines(cfg, false, |Unpinned(w, c).free|) && Affords(cfg, Whole(w.t, c))
    requires !Anchored(w.t, c)
    ensures NeverFails(orders) && Formed(Also(w, pins)) && Releasing(Also(w, pins), c, pins, cfg, orders) == Gone
  {
    UnforgottenUnpinned(w, c);
    UnpinnedIs(w, c);
    WholeIsListed(Unpinned(w, c), c);
    var order := PartIsStruck(w, pins, c, cfg, Whole(w.t, c));
    orders := [order] + [];
  }

  /** A release that makes a context idle that has had children, with automatic clean-up on, where
      the pass does not decline and could afford all that is below the context: it returns whatever
      the order of the list if and only if something at or below the context cannot be reclaimed. */
  lemma ReleaseReturnsIff<C>(h: Held<C>, c: C, cfg: Settings)
    requires Accounted(h) && Formed(h.w) && c in h.w.t.live && h.handles[c] > 0 && Lists(h.w, c)
    requires c in h.w.t.counting && cfg.automatic
    requires !Declines(cfg, false, |Unpinned(h.w, c).free|) && Affords(cfg, Whole(h.w.t, c))
    ensures (forall orders :: NeverFails(orders) ==> Releasing(h.w, c, {}, cfg, orders) != Gone) <==> Anchored(h.w.t, c)
  {
    FormedHeld(h, c);
    assert Also(h.w, {}) == h.w by { assert h.w.held + {} == h.w.held; }
    if x :| x in h.w.t.live && Below(h.w.t, x, c) && Unreclaimable(h.w.t, x) {
      BelowHasParent(h.w.t, x, c);
      forall orders
        ensures Releasing(h.w, c, {}, cfg, orders) != Gone
      {
        UnreclaimableKeeps(h.w, c, {}, cfg, orders, x);
      }
    } else {
      Unforgotten(h);
      var orders := WholeIsLost(h.w, {}, c, cfg);
    }
  }

  // ---------------------------------------------------------------------------------------
  // Releases that lose count
  // ---------------------------------------------------------------------------------------

  /** Somebody has less than its minimum: a reference was given up twice. */
  ghost predicate Broken<C>(w: World<C>)
    requires Formed(w)
  {
    exists b :: b in w.t.live && Excess(w, b) < 0
  }

  lemma NeverFailsMore<C>(a: seq<seq<(C, bool)>>, b: seq<seq<(C, bool)>>)
    requires NeverFails(a) && NeverFails(b)
    ensures NeverFails(a + b)
  {
  }

  lemma NeverFailsOnce<C>(order: seq<(C, bool)>)
    requires NoneFails(order)
    ensures NeverFails([order])
  {
  }

  /** The release loses a context it is not finished with, or a reference. */
  ghost predicate Lost<C>(o: Outcome<C>) {
    o == Gone || (o.Returned? && Formed(o.w) && Broken(o.w))
  }

  /** A release leaves an idle context with a pin as it is, or with a reference too few. */
  lemma {:induction false} ReleaseTouches<C>(w: World<C>, c: C, y: C)
    requires Shape(w.t) && w.refs.Keys == w.t.live && c in w.t.live && y in w.t.live && y in w.held && Excess(w, y) == 0
    ensures var w' := Release(w, c);
            Excess(w', y) < 0 || (Excess(w', y) == 0 && y in w'.held)
    decreases w.t.depth[c]
  {
    ReleaseLowers(w, c, y);
    if c != y && w.refs[c] - 1 == Min(w.t, c) && c in w.t.parent && c in w.held {
      assert ChildRight(w.t, c);
      ReleaseTouches(TryToAdd(w.(refs := w.refs[c := w.refs[c] - 1]), c), w.t.parent[c], y);
    }
  }

  /** When it loses a child, the parent it pins is let go once more. */
  lemma ReclaimTwice<C>(w: World<C>, x: C, y: C)
    requires Formed(w) && x in w.t.parent && w.t.items[x] == {} && w.t.parent[x] == y
    requires y in w.t.parent && y in w.t.live && y in w.held && Excess(w, y) == 0
    ensures var p, w' := w.t.parent[y], Reclaim(w, x);
            p in w'.t.items && p in w'.refs && p in w.t.live && Excess(w', p) < Excess(w, p)
  {
    var p := w.t.parent[y];
    assert ChildRight(w.t, x) && ChildRight(w.t, y);
    CutKeepsShape(w.t, x);
    assert ChildRight(Cut(w.t, x), y);
    assert |w.t.items[y] - {x}| == |w.t.items[y]| - 1;
    var cut := World(Cut(w.t, x), w.refs - {x}, w.held, w.flag - {x}, w.free - {x});
    ReleaseLowers(TryToAdd(cut.(refs := cut.refs[y := cut.refs[y] - 1]), y), p, p);
  }

  lemma ReclaimTouches<C>(w: World<C>, x: C, y: C)
    requires Formed(w) && x in w.t.parent && w.t.items[x] == {} && w.t.parent[x] != y && x != y
    requires y in w.t.live && y in w.held && Excess(w, y) == 0
    ensures var w' := Reclaim(w, x);
            && y in w'.t.items && y in w'.refs
            && (Excess(w', y) < 0 || (Excess(w', y) == 0 && y in w'.held))
  {
    assert ChildRight(w.t, x);
    CutKeepsShape(w.t, x);
    ReleaseTouches(World(Cut(w.t, x), w.refs - {x}, w.held, w.flag - {x}, w.free - {x}), w.t.parent[x], y);
  }

  ghost predicate Deficient<C>(w: World<C>, y: C, p: C)
    requires y in w.t.items && y in w.refs && p in w.t.items && p in w.refs
  {
    Excess(w, y) < 0 || Excess(w, p) < 0
  }

  lemma TurnDeficit<C>(s: Pass<C>, x: C, fails: bool, y: C, p: C)
    requires Passable(s) && x in s.todo && y in s.w.t.parent && y in s.w.t.live && p == s.w.t.parent[y] && p in s.w.t.live
    requires y in s.w.held && Excess(s.w, y) == 0 && Excess(s.w, p) <= 0
    requires Passable(Turn(s, x, fails)) && y in Turn(s, x, fails).w.t.live && p in Turn(s, x, fails).w.t.live
    ensures var s1 := Turn(s, x, fails);
            || Deficient(s1.w, y, p)
            || (y in s1.w.held && Excess(s1.w, y) == 0 && Excess(s1.w, p) <= 0 && s.w.t.items[y] <= s1.w.t.live)
  {
    TurnAt(s, s.w, x, fails);
    TurnLowers(s, x, fails, p);
    ChildrenLive(s.w.t, y);
    if s.w.t.items[x] == {} {
      if x in s.w.t.parent {
        if s.w.t.parent[x] == y {
          ReclaimTwice(s.w, x, y);
        } else if x != y {
          ReclaimTouches(s.w, x, y);
          NotItsChild(s.w.t, x, y);
        }
      } else {
        DeletedLowers(s.w, x, y);
        NotItsChild(s.w.t, x, y);
      }
    }
  }

  lemma NotItsChild<C>(t: Tree<C>, x: C, y: C)
    requires Shape(t) && y in t.live && (x in t.parent ==> t.parent[x] != y)
    ensures x !in t.items[y]
  {
  }

  lemma {:induction false} LoopLowers<C>(s: Pass<C>, order: seq<(C, bool)>, quota: int, x: C)
    requires Passable(s) && Enumerates(order, s.todo) && x in s.w.t.live && x in Loop(s, order, quota).w.t.live
    ensures Excess(Loop(s, order, quota).w, x) <= Excess(s.w, x)
    decreases |order|
  {
    hide Excess, PassInv, Turn;
    if order != [] && !(quota > 0 && s.ret >= quota) {
      TurnedIs(s, order[0].0, order[0].1);
      TurnLowers(s, order[0].0, order[0].1, x);
      LoopLowers(Turn(s, order[0].0, order[0].1), order[1..], quota, x);
    }
  }

  /** A pass that takes a child of an idle context that still pins its parent leaves one of the two
      with a reference too few, if both were idle. */
  lemma {:induction false} LoopDeficit<C>(s: Pass<C>, order: seq<(C, bool)>, quota: int, y: C, p: C, k: C)
    requires Passable(s) && Enumerates(order, s.todo) && k in s.w.t.live
    requires y in s.w.t.parent && y in s.w.t.live && p == s.w.t.parent[y] && p in s.w.t.live && k in s.w.t.items[y]
    requires y in s.w.held && Excess(s.w, y) == 0 && Excess(s.w, p) <= 0
    ensures var s' := Loop(s, order, quota);
            k !in s'.w.t.live && y in s'.w.t.live && p in s'.w.t.live ==> Deficient(s'.w, y, p)
    decreases |order|
  {
    hide Excess, PassInv, Turn;
    if order != [] && !(quota > 0 && s.ret >= quota) {
      var s1 := Turn(s, order[0].0, order[0].1);
      TurnedIs(s, order[0].0, order[0].1);
      var s' := Loop(s, order, quota);
      if k !in s'.w.t.live && y in s'.w.t.live && p in s'.w.t.live {
        TurnDeficit(s, order[0].0, order[0].1, y, p);
        if Deficient(s1.w, y, p) {
          LoopLowers(s1, order[1..], quota, y);
          LoopLowers(s1, order[1..], quota, p);
        } else {
          ItemsLater(s.w.t, s1.w.t, y, k);
          LoopDeficit(s1, order[1..], quota, y, p, k);
        }
      }
    }
  }

  lemma ItemsLater<C>(t: Tree<C>, t': Tree<C>, y: C, k: C)
    requires Shape(t) && Shape(t') && Shrunk(t, t') && k in t'.live && y in t.live && k in t.items[y]
    ensures y in t'.live && k in t'.items[y]
  {
    assert ChildRight(t', k);
  }

  lemma PassedLowers<C>(w: World<C>, c: C, cfg: Settings, orders: seq<seq<(C, bool)>>, b: C)
    requires Formed(w) && c in w.t.live && b in w.t.live && Playable(w, c, cfg, orders)
    requires b in Passed(w, c, cfg, orders).t.live
    ensures Excess(Passed(w, c, cfg, orders), b) <= Excess(w, b)
  {
    var v := Listing(w, c);
    if Starts(Offered(w, c), c, cfg) && !Declines(cfg, false, |v.free|) {
      PassStarts(v);
      LoopLowers(Pass(v.(free := {}), v.free, {}, 0), orders[0], cfg.maxAtOnce, b);
    }
  }

  lemma PassedFirst<C>(w: World<C>, c: C, cfg: Settings, orders: seq<seq<(C, bool)>>, left: seq<seq<(C, bool)>>)
    requires Formed(w) && c in w.t.live && Playable(w, c, cfg, orders)
    requires if Starts(Offered(w, c), c, cfg) then |orders| == 1 else orders == []
    ensures Playable(w, c, cfg, orders + left) && Passed(w, c, cfg, orders + left) == Passed(w, c, cfg, orders)
    ensures Starts(Offered(w, c), c, cfg) ==> (orders + left)[1..] == left
    ensures !Starts(Offered(w, c), c, cfg) ==> orders + left == left
  {
    if orders != [] {
      assert (orders + left)[0] == orders[0];
    }
  }

  lemma BrokenWithout<C>(w: World<C>, c: C)
    requires Formed(w) && Broken(w)
    ensures Formed(w.(held := w.held - {c})) && Broken(w.(held := w.held - {c}))
  {
    var b :| b in w.t.live && Excess(w, b) < 0;
    assert Excess(w.(held := w.held - {c}), b) < 0;
  }

  lemma NoOrders<C>()
    ensures NeverFails<C>([])
  {
  }

  lemma AnyOrders<C>(w: World<C>, c: C, cfg: Settings) returns (orders: seq<seq<(C, bool)>>)
    requires Formed(w) && c in w.t.live
    ensures NeverFails(orders) && Playable(w, c, cfg, orders)
    ensures if Starts(Offered(w, c), c, cfg) then |orders| == 1 else orders == []
  {
    orders := [];
    if Starts(Offered(w, c), c, cfg) {
      var order := LeadingOrder(Listing(w, c).free, {}, w.t.depth);
      orders := [order];
    }
  }

  /** Whatever else happens on the way up, a missing reference stays missing. */
  lemma {:induction false} StaysBroken<C>(w: World<C>, c: C, waiting: set<C>, cfg: Settings, b: C)
      returns (orders: seq<seq<(C, bool)>>)
    requires Formed(w) && c in w.t.live && b in w.t.live && b in waiting + {c} && Excess(w, b) < 0
    ensures NeverFails(orders) && Lost(Releasing(w, c, waiting, cfg, orders))
    decreases w.t.depth[c]
  {
    hide Starts, Playable, Passed, NeverFails;
    orders := [];
    if w.refs[c] - 1 != Min(w.t, c) {
      assert Excess(Offered(w, c), b) < 0;
      NoOrders<C>();
    } else {
      orders := AnyOrders(w, c, cfg);
      var w' := Passed(w, c, cfg, orders);
      if waiting + {c} <= w'.t.live {
        PassedLowers(w, c, cfg, orders, b);
        var left := [];
        NoOrders<C>();
        if c in w'.t.parent && c in w'.held {
          left := StaysBroken(w', Up(w'.t, c), waiting + {c}, cfg, b);
        }
        BrokenHigher(w, c, waiting, cfg, orders, b, left);
        NeverFailsMore(orders, left);
        orders := orders + left;
      }
    }
  }

  /** A reference that is missing after c's own pass, and orders that keep it missing above. */
  lemma BrokenHigher<C>(w: World<C>, c: C, waiting: set<C>, cfg: Settings, orders: seq<seq<(C, bool)>>, b: C,
                        left: seq<seq<(C, bool)>>)
    requires Formed(w) && c in w.t.live && w.refs[c] - 1 == Min(w.t, c) && Playable(w, c, cfg, orders)
    requires if Starts(Offered(w, c), c, cfg) then |orders| == 1 else orders == []
    requires var w' := Passed(w, c, cfg, orders);
             && waiting + {c} <= w'.t.live && b in w'.t.live && Excess(w', b) < 0
             && (c in w'.t.parent && c in w'.held ==>
                   var up := Releasing(w', Up(w'.t, c), waiting + {c}, cfg, left);
                   Lost(up))
    ensures Lost(Releasing(w, c, waiting, cfg, orders + left))
  {
    hide Starts, Shape, Passed, Playable;
    var w' := Passed(w, c, cfg, orders);
    if c in w'.t.parent && c in w'.held {
      BrokenUp(w, c, waiting, cfg, orders, left);
    } else {
      PassedFirst(w, c, cfg, orders, left);
      ReleasingEnds(w, c, waiting, cfg, orders + left);
      assert Broken(w');
    }
  }

  /** What the levels below hand up: y is idle and its release waits for that of a, as does that of
      its parent, and nothing holds k, which is y or a child of y. */
  ghost predicate Exposed<C>(w: World<C>, pins: set<C>, a: C, y: C, k: C)
    requires Formed(w) && a in w.t.live
  {
    && pins <= w.t.live && y in pins && y in w.t.parent && Excess(w, y) == 0
    && w.t.parent[y] in pins + {a} && (w.t.parent[y] != a ==> Excess(w, w.t.parent[y]) == 0)
    && (forall z :: z in pins ==> w.t.depth[z] > w.t.depth[a])
    && (k == y || k in w.t.items[y]) && k in w.t.live && k in w.t.parent && w.refs[k] == Min(w.t, k) && !Anchored(w.t, k)
  }

  /** A pass that takes k either takes a waiting context or leaves somebody with too little. */
  lemma StruckPass<C>(w: World<C>, pins: set<C>, a: C, cfg: Settings, y: C, k: C, order: seq<(C, bool)>)
    requires Inv(w) && Formed(w) && a in w.t.live && Clients(w, a) > 0 && Lists(w, a)
    requires Exposed(w, pins, a, y, k) && Formed(Also(w, pins))
    requires Starts(Offered(Also(w, pins), a), a, cfg) && Playable(Also(w, pins), a, cfg, [order])
    requires k !in Passed(Also(w, pins), a, cfg, [order]).t.live
    ensures var v := Passed(Also(w, pins), a, cfg, [order]);
            pins + {a} <= v.t.live ==>
              w.t.parent[y] in v.t.live && Deficient(v, y, w.t.parent[y])
  {
    hide Starts, CleanUp, Enumerates, Anchored, Shape, Clients, Unpinned;
    ListingAlso(w, pins, a, cfg);
    UnpinnedIs(w, a);
    ListedIsUnpinned(w, a);
    FormedAlso(Unpinned(w, a), pins + {a});
    assert [order][0] == order;
    ExposedPinned(w, pins, a, y, k);
    CleanUpDeficit(Also(Unpinned(w, a), pins + {a}), cfg, order, y, k);
  }

  lemma ExposedPinned<C>(w: World<C>, pins: set<C>, a: C, y: C, k: C)
    requires Inv(w) && Formed(w) && a in w.t.live && Clients(w, a) > 0 && Lists(w, a)
    requires Exposed(w, pins, a, y, k)
    ensures var v, p := Also(Unpinned(w, a), pins + {a}), w.t.parent[y];
            && v.t == w.t && y in v.t.live && p in v.t.live && v.refs.Keys == v.t.live && y in v.held
            && Excess(v, y) == 0 && Excess(v, p) <= 0 && p in pins + {a}
            && (k != y ==> k in v.t.items[y])
  {
    UnpinnedIs(w, a);
  }

  lemma CleanUpDeficit<C>(v: World<C>, cfg: Settings, order: seq<(C, bool)>, y: C, k: C)
    requires Formed(v) && Enumerates(order, v.free) && k in v.t.live
    requires y in v.t.parent && y in v.t.live && v.t.parent[y] in v.t.live && y in v.held
    requires Excess(v, y) == 0 && Excess(v, v.t.parent[y]) <= 0 && (k != y ==> k in v.t.items[y])
    ensures var v' := CleanUp(v, cfg, false, order).0;
            k !in v'.t.live && y in v'.t.live && v.t.parent[y] in v'.t.live ==> Deficient(v', y, v.t.parent[y])
  {
    hide Loop, Enumerates, Shape;
    if !Declines(cfg, false, |v.free|) && k != y {
      PassStarts(v);
      LoopDeficit(Pass(v.(free := {}), v.free, {}, 0), order, cfg.maxAtOnce, y, v.t.parent[y], k);
    }
  }

  lemma BrokenUp<C>(w: World<C>, c: C, waiting: set<C>, cfg: Settings, orders: seq<seq<(C, bool)>>,
                    left: seq<seq<(C, bool)>>)
    requires Formed(w) && c in w.t.live && w.refs[c] - 1 == Min(w.t, c) && Playable(w, c, cfg, orders)
    requires if Starts(Offered(w, c), c, cfg) then |orders| == 1 else orders == []
    requires var w' := Passed(w, c, cfg, orders);
             && waiting + {c} <= w'.t.live && c in w'.t.parent && c in w'.held
             && var up := Releasing(w', Up(w'.t, c), waiting + {c}, cfg, left);
                Lost(up)
    ensures Lost(Releasing(w, c, waiting, cfg, orders + left))
  {
    hide Starts, Shape, Passed, Playable;
    var w' := Passed(w, c, cfg, orders);
    PassedFirst(w, c, cfg, orders, left);
    ReleasingUp(w, c, waiting, cfg, orders + left);
    var up := Releasing(w', Up(w'.t, c), waiting + {c}, cfg, left);
    if up.Returned? {
      BrokenWithout(up.w, c);
    }
  }

  lemma ExposedListed<C>(w: World<C>, pins: set<C>, a: C, y: C, k: C)
    requires Inv(w) && Formed(w) && a in w.t.live && Clients(w, a) > 0 && Lists(w, a)
    requires Exposed(w, pins, a, y, k) && Complete(w)
    ensures Formed(Unpinned(w, a)) && Reclaimable(Unpinned(w, a), Whole(w.t, k))
    ensures Whole(w.t, k) <= Unpinned(w, a).free && k in Whole(w.t, k)
  {
    UnforgottenUnpinned(w, a);
    UnpinnedIs(w, a);
    assert k != a by {
      if k != y {
        assert ChildRight(w.t, k);
      }
    }
    WholeIsListed(Unpinned(w, a), k);
  }

  lemma StrikingOrder<C>(w: World<C>, pins: set<C>, a: C, cfg: Settings, y: C, k: C) returns (order: seq<(C, bool)>)
    requires Inv(w) && Formed(w) && a in w.t.live && Clients(w, a) > 0 && Lists(w, a) && a in w.t.counting
    requires Exposed(w, pins, a, y, k) && Boundless(cfg) && Complete(w)
    ensures NoneFails(order) && Formed(Also(w, pins)) && Starts(Offered(Also(w, pins), a), a, cfg)
    ensures Playable(Also(w, pins), a, cfg, [order]) && w.t.parent[y] in w.t.live
    ensures var v := Passed(Also(w, pins), a, cfg, [order]);
            pins + {a} <= v.t.live ==> w.t.parent[y] in v.t.live && Deficient(v, y, w.t.parent[y])
  {
    hide Starts, Passed, Playable, Anchored, Clients, Unpinned, Excess;
    ExposedListed(w, pins, a, y, k);
    BoundlessNeverDeclines(cfg, |Unpinned(w, a).free|);
    order := PartIsStruck(w, pins, a, cfg, Whole(w.t, k));
    assert [order] + [] == [order];
    StruckPass(w, pins, a, cfg, y, k, order);
  }

  /** The pass that listing a starts strikes. */
  lemma StruckHere<C>(w: World<C>, pins: set<C>, a: C, cfg: Settings, y: C, k: C) returns (orders: seq<seq<(C, bool)>>)
    requires Inv(w) && Formed(w) && a in w.t.live && Clients(w, a) > 0 && Lists(w, a) && a in w.t.counting
    requires Exposed(w, pins, a, y, k) && Boundless(cfg) && Complete(w)
    ensures Formed(Also(w, pins))
    ensures NeverFails(orders) && Lost(Releasing(Also(w, pins), a, pins, cfg, orders))
  {
    hide Starts, Playable, Passed, NeverFails, Anchored, Clients, Unpinned;
    var order := StrikingOrder(w, pins, a, cfg, y, k);
    orders := [order];
    NoOrders<C>();
    NeverFailsOnce(order);
    var v := Passed(Also(w, pins), a, cfg, orders);
    if pins + {a} <= v.t.live {
      var b := if Excess(v, y) < 0 then y else w.t.parent[y];
      var left := [];
      if a in v.t.parent && a in v.held {
        left := StaysBroken(v, Up(v.t, a), pins + {a}, cfg, b);
      }
      BrokenHigher(Also(w, pins), a, pins, cfg, orders, b, left);
      NeverFailsMore(orders, left);
      orders := orders + left;
    }
  }

  /** One level up without a pass. */
  lemma ExposedUp<C>(w: World<C>, x: World<C>, pins: set<C>, a: C, y: C, k: C)
    requires Formed(w) && Formed(x) && a in w.t.live && a in w.t.parent && Exposed(w, pins, a, y, k)
    requires x.t == w.t && (forall z :: z in w.t.live && z != a ==> x.refs[z] == w.refs[z]) && Excess(x, a) == 0
    ensures Exposed(x, pins + {a}, Up(w.t, a), y, k)
  {
    assert ChildRight(w.t, a);
    assert k != a by {
      if k != y {
        assert ChildRight(w.t, k);
      }
    }
  }

  lemma UnpinnedUp<C>(w: World<C>, a: C)
    requires Inv(w) && Formed(w) && a in w.t.live && Clients(w, a) > 0 && Lists(w, a)
    ensures Inv(Unpinned(w, a)) && Formed(Unpinned(w, a)) && Clients(Unpinned(w, a), Up(w.t, a)) > 0
    ensures PassAbove(w, a) ==>
              var p := Up(w.t, a); Lists(Unpinned(w, a), p) && (p in w.t.counting || PassAbove(Unpinned(w, a), p))
  {
    ListedIsUnpinned(w, a);
    ReleasePinned(w, a);
    UnpinnedIs(w, a);
    if PassAbove(w, a) {
      PassAboveStays(w, Unpinned(w, a), Up(w.t, a));
    }
  }

  /** So does the next pass on the way up, wherever it starts. */
  lemma {:induction false} Struck<C>(w: World<C>, pins: set<C>, a: C, cfg: Settings, y: C, k: C)
      returns (orders: seq<seq<(C, bool)>>)
    requires Inv(w) && Formed(w) && a in w.t.live && Clients(w, a) > 0
    requires Lists(w, a) && (a in w.t.counting || PassAbove(w, a))
    requires Exposed(w, pins, a, y, k) && Boundless(cfg) && Complete(w)
    ensures Formed(Also(w, pins))
    ensures NeverFails(orders) && Lost(Releasing(Also(w, pins), a, pins, cfg, orders))
    decreases w.t.depth[a]
  {
    FormedAlso(w, pins);
    if a in w.t.counting {
      orders := StruckHere(w, pins, a, cfg, y, k);
    } else {
      var u, p := Unpinned(w, a), Up(w.t, a);
      UnforgottenUnpinned(w, a);
      UnpinnedUp(w, a);
      UnpinnedIs(w, a);
      ExposedUp(w, u, pins, a, y, k);
      orders := Struck(u, pins + {a}, p, cfg, y, k);
      ListingAlso(w, pins, a, cfg);
      ReleasingUp(Also(w, pins), a, pins, cfg, orders);
      var up := Releasing(Also(u, pins + {a}), p, pins + {a}, cfg, orders);
      if up.Returned? {
        BrokenWithout(up.w, a);
      }
    }
  }

  // ---------------------------------------------------------------------------------------
  // Passes that keep what is loose for a later one
  // ---------------------------------------------------------------------------------------

  lemma LooseIsListed<C>(w: World<C>, c: C, y: C)
    requires Inv(w) && Formed(w) && c in w.t.live && Clients(w, c) > 0 && Lists(w, c) && Complete(w) && Loose(w, y)
    ensures y != c && y in Unpinned(w, c).free && !Unreclaimable(w.t, y) && Excess(Unpinned(w, c), y) == 0
    ensures Unpinned(w, c).t == w.t && Formed(Unpinned(w, c)) && Inv(Unpinned(w, c))
  {
    UnforgottenUnpinned(w, c);
    UnpinnedIs(w, c);
    LooseIsReclaimable(w, y);
    assert !Forgotten(Unpinned(w, c), y);
  }

  /** What is loose and stays is loose still. */
  lemma LooseStays<C>(w: World<C>, c: C, starts: bool, cfg: Settings, order: seq<(C, bool)>, y: C)
    requires Inv(w) && Formed(w) && c in w.t.live && Clients(w, c) > 0 && Lists(w, c) && Loose(w, y)
    requires starts ==> Enumerates(order, Unpinned(w, c).free)
    requires y in Unheld(w, c, starts, cfg, order).t.live
    ensures y != c && Loose(Unheld(w, c, starts, cfg, order), y)
  {
    var x := Unheld(w, c, starts, cfg, order);
    UnheldIs(w, c, starts, cfg, order);
    assert UnheldAt(w, c, w.t.parent[c], x, y);
    if Anchored(x.t, y) {
      AnchoredBefore(w.t, x.t, y);
    }
  }

  /** In some order the own pass of c takes leaves alone: no child of c, unless it must. */
  lemma SlowPass<C>(w: World<C>, c: C, cfg: Settings) returns (order: seq<(C, bool)>)
    requires Inv(w) && Formed(w) && c in w.t.live && Clients(w, c) > 0 && Lists(w, c) && Complete(w)
    requires Boundless(cfg) && !Sheds(w, c)
    ensures Enumerates(order, Unpinned(w, c).free) && NoneFails(order)
    ensures w.t.items[c] <= Unheld(w, c, true, cfg, order).t.live
  {
    hide Sheds, Unpinned, CleanUp, Enumerates;
    ListedIsUnpinned(w, c);
    UnpinnedIs(w, c);
    var u := Unpinned(w, c);
    var keep := set y | y in u.free && w.t.items[y] != {};
    order := MayKeep(u, cfg, keep, {});
    forall k | k in w.t.items[c]
      ensures k in Unheld(w, c, true, cfg, order).t.live
    {
      assert ChildRight(w.t, k);
      if Anchored(w.t, k) {
        UnheldSteady(w, c, true, cfg, order);
        AnchoredStays(w.t, Unheld(w, c, true, cfg, order).t, k);
      } else {
        IdleChild(w, c, k);
        LooseIsListed(w, c, k);
        NotShedding(w, c, k);
        assert k in keep;
      }
    }
  }

  lemma NotShedding<C>(w: World<C>, c: C, k: C)
    requires Formed(w) && c in w.t.live && !Sheds(w, c) && k in w.t.items[c] && Loose(w, k)
    ensures w.t.items[k] != {}
  {
  }

  /** What lies loose outside the part below k. */
  ghost function Elsewhere<C>(w: World<C>, k: C): set<C>
    requires Formed(w)
  {
    set y | y in w.t.live && Loose(w, y) && !Below(w.t, y, k)
  }

  lemma ElsewhereIsClosed<C>(w: World<C>, k: C, y: C, z: C)
    requires Sound(w) && Formed(w) && y in Elsewhere(w, k) && z in w.t.items[y]
    requires k in w.t.parent && !Loose(w, w.t.parent[k])
    ensures z in Elsewhere(w, k)
  {
    assert ChildRight(w.t, z);
    assert Ancestor(w.t, z, 1) == Ancestor(w.t, y, 0) == y;
    LooseBelow(w, z, y);
    if n: nat :| Ancestor(w.t, z, n) == k {
      if n > 0 {
        assert Ancestor(w.t, y, n - 1) == k;
      }
    }
  }

  lemma ElsewhereIsListed<C>(w: World<C>, c: C, k: C)
    requires Inv(w) && Formed(w) && c in w.t.live && Clients(w, c) > 0 && Lists(w, c) && Complete(w)
    requires k in w.t.parent && !Loose(w, w.t.parent[k])
    ensures var u := Unpinned(w, c);
            Formed(u) && u.t == w.t && Reclaimable(u, Elsewhere(w, k)) && Elsewhere(w, k) <= u.free
  {
    UnforgottenUnpinned(w, c);
    UnpinnedIs(w, c);
    forall y | y in Elsewhere(w, k)
      ensures y in Unpinned(w, c).free && !Unreclaimable(w.t, y) && Excess(Unpinned(w, c), y) <= 0
      ensures w.t.items[y] <= Elsewhere(w, k)
    {
      LooseIsListed(w, c, y);
      forall z | z in w.t.items[y]
        ensures z in Elsewhere(w, k)
      {
        ElsewhereIsClosed(w, k, y, z);
      }
    }
  }

  /** All but the leaves of the part below k. */
  ghost function Inner<C>(t: Tree<C>, k: C): set<C>
    requires Shape(t)
  {
    set y | y in t.live && Below(t, y, k) && t.items[y] != {}
  }

  lemma InnerIsListed<C>(w: World<C>, c: C, k: C)
    requires Inv(w) && Formed(w) && c in w.t.live && Clients(w, c) > 0 && Lists(w, c) && Complete(w) && Loose(w, k)
    ensures Inner(w.t, k) <= Unpinned(w, c).free
  {
    forall y | y in Inner(w.t, k)
      ensures y in Unpinned(w, c).free
    {
      LooseBelow(w, y, k);
      LooseIsListed(w, c, y);
    }
  }

  /** In some order it takes of what is loose all but the part below k, and of that the leaves. */
  lemma PickyPass<C>(w: World<C>, c: C, cfg: Settings, k: C) returns (order: seq<(C, bool)>)
    requires Inv(w) && Formed(w) && c in w.t.live && Clients(w, c) > 0 && Lists(w, c) && Complete(w)
    requires Boundless(cfg) && Loose(w, k) && k in w.t.parent && !Loose(w, w.t.parent[k])
    ensures Enumerates(order, Unpinned(w, c).free) && NoneFails(order)
    ensures var x := Unheld(w, c, true, cfg, order);
            Inner(w.t, k) <= x.t.live && Elsewhere(w, k) !! x.t.live
  {
    hide Unpinned, CleanUp, Enumerates, Loose, Clients, Complete;
    ListedIsUnpinned(w, c);
    ElsewhereIsListed(w, c, k);
    InnerIsListed(w, c, k);
    order := MayKeep(Unpinned(w, c), cfg, Inner(w.t, k), Elsewhere(w, k));
  }

  /** What that leaves: one level less below k, and nothing else loose. */
  ghost predicate Picked<C>(w: World<C>, x: World<C>, k: C)
    requires Formed(w) && Formed(x)
  {
    && k in x.t.live && Loose(x, k) && (forall n: nat {:trigger Deep(x.t, k, n)} :: Deep(w.t, k, n + 1) ==> Deep(x.t, k, n))
    && (forall y :: y in x.t.live && Loose(x, y) ==> y in w.t.live && Below(w.t, y, k))
  }

  lemma DeepAfter<C>(t: Tree<C>, t': Tree<C>, k: C, n: nat)
    requires Shape(t) && Shape(t') && Shrunk(t, t') && Inner(t, k) <= t'.live && k in t.parent && Deep(t, k, n + 1)
    ensures Deep(t', k, n)
  {
    var z :| z in t.live && Ancestor(t, z, n + 1) == k;
    assert z in t.parent;
    assert ChildRight(t, z);
    var y := t.parent[z];
    assert Ancestor(t, y, n) == k && y in Inner(t, k);
    AncestorStays(t, t', y, n);
  }

  lemma DeepLess<C>(t: Tree<C>, k: C, n: nat, m: nat)
    requires Shape(t) && Deep(t, k, n) && m <= n
    ensures Deep(t, k, m)
  {
    var z :| z in t.live && Ancestor(t, z, n) == k;
    AncestorSum(t, z, n - m, m);
    assert Ancestor(t, Ancestor(t, z, n - m), m) == k;
  }

  lemma {:induction false} EndangersDeep<C>(w: World<C>, a: C, n: nat, k: C)
    requires Formed(w) && a in w.t.live && Endangers(w, a, n, k)
    ensures Deep(w.t, k, n)
    decreases w.t.depth[a]
  {
    hide Deep, Loose, Sheds;
    var n' := if a in w.t.counting then n + 1 else n;
    if Endangers(w, Up(w.t, a), n', k) {
      EndangersDeep(w, Up(w.t, a), n', k);
    }
    DeepLess(w.t, k, n', n);
  }

  lemma UnheldPicked<C>(w: World<C>, c: C, cfg: Settings, order: seq<(C, bool)>, k: C)
    requires Inv(w) && Formed(w) && c in w.t.live && Clients(w, c) > 0 && Lists(w, c) && Anchored(w.t, c)
    requires Enumerates(order, Unpinned(w, c).free)
    requires Loose(w, k) && k in w.t.parent && Deep(w.t, k, 1)
    requires var x := Unheld(w, c, true, cfg, order);
             Inner(w.t, k) <= x.t.live && Elsewhere(w, k) !! x.t.live
    ensures Picked(w, Unheld(w, c, true, cfg, order), k)
  {
    var x := Unheld(w, c, true, cfg, order);
    DeepOne(w.t, k);
    assert Ancestor(w.t, k, 0) == k;
    assert k in Inner(w.t, k);
    LooseStays(w, c, true, cfg, order, k);
    forall n: nat | Deep(w.t, k, n + 1)
      ensures Deep(x.t, k, n)
    {
      DeepAfter(w.t, x.t, k, n);
    }
    forall y | y in x.t.live && Loose(x, y)
      ensures Below(w.t, y, k)
    {
      LooseBefore(w, c, true, cfg, order, y);
      assert y !in Elsewhere(w, k);
    }
  }

  /** So k endangers the levels above with one pass less to outlast. */
  lemma {:induction false} EndangersAfter<C>(w: World<C>, x: World<C>, a: C, n: nat, k: C)
    requires Sound(w) && Formed(w) && Formed(x) && a in w.t.live && Steady(w, x, a) && Picked(w, x, k)
    requires Loose(w, k) && Endangers(w, a, n + 1, k)
    ensures Endangers(x, a, n, k)
    decreases w.t.depth[a]
  {
    hide Loose, Deep;
    var n' := if a in w.t.counting then n + 1 else n;
    assert ChildRight(w.t, a) && ChildRight(x.t, a);
    PassAboveStays(w, x, a);
    if a in w.t.counting {
      PickedSheds(w, x, a, n, k);
    }
    if Endangers(w, Up(w.t, a), n' + 1, k) {
      EndangersAfter(w, x, Up(w.t, a), n', k);
    } else {
      assert ChildRight(w.t, k);
      KeptItem(w.t, x.t, a, k);
    }
  }

  lemma KeptItem<C>(t: Tree<C>, t': Tree<C>, a: C, k: C)
    requires Shape(t) && Shape(t') && Shrunk(t, t') && a in t.live && k in t.items[a] && k in t'.live
    ensures a in t'.live && k in t'.items[a]
  {
    assert ChildRight(t, k) && ChildRight(t', k);
  }

  lemma PickedSheds<C>(w: World<C>, x: World<C>, a: C, n: nat, k: C)
    requires Sound(w) && Formed(w) && Formed(x) && a in w.t.live && a in x.t.live && Steady(w, x, a) && Picked(w, x, k)
    requires Loose(w, k) && Endangers(w, a, n + 1, k) && a in w.t.counting && Lists(w, a)
    ensures !Sheds(x, a)
  {
    hide Loose, Deep, Endangers, Steady;
    if y :| y in x.t.items[a] && Loose(x, y) && x.t.items[y] == {} {
      assert ChildRight(x.t, y);
      if y == k {
        PickedDeep(w, x, a, n, k);
        DeepOne(x.t, k);
      } else {
        EndangersLive(w, a, n + 1, k);
        PickedBelow(w, x, a, k, y);
      }
    }
  }

  lemma PickedDeep<C>(w: World<C>, x: World<C>, a: C, n: nat, k: C)
    requires Formed(w) && Formed(x) && a in w.t.live && Steady(w, x, a) && Picked(w, x, k) && a in x.t.live
    requires Endangers(w, a, n + 1, k) && a in w.t.counting && k in x.t.items[a]
    ensures Deep(x.t, k, 1)
  {
    hide Loose, Deep, Endangers;
    EndangersHere(w, a, n + 1, k);
    DeepLess(w.t, k, n + 2, 2);
  }

  lemma PickedBelow<C>(w: World<C>, x: World<C>, a: C, k: C, y: C)
    requires Sound(w) && Formed(w) && Formed(x) && a in w.t.live && a in x.t.live && Steady(w, x, a) && Picked(w, x, k)
    requires Loose(w, k) && y in x.t.items[a] && y in x.t.live && y in x.t.parent && Loose(x, y) && y != k
    ensures !Lists(w, a)
  {
    assert ChildRight(x.t, y) && ChildRight(w.t, y);
    var m: nat :| Ancestor(w.t, y, m) == k;
    assert Ancestor(w.t, a, m - 1) == k;
    BelowIsIdle(w, a, k);
  }

  lemma EndangersHere<C>(w: World<C>, a: C, n: nat, k: C)
    requires Formed(w) && a in w.t.live && Endangers(w, a, n, k) && k in w.t.items[a]
    ensures Deep(w.t, k, if a in w.t.counting then n + 1 else n)
  {
    hide Deep, Loose, Sheds;
    var n' := if a in w.t.counting then n + 1 else n;
    assert ChildRight(w.t, k);
    if Endangers(w, Up(w.t, a), n', k) {
      EndangersLive(w, Up(w.t, a), n', k);
    }
  }

  // ---------------------------------------------------------------------------------------
  // The release that is not safe
  // ---------------------------------------------------------------------------------------

  /** What there is to strike once the release of c waits. */
  lemma ExposedAbove<C>(w: World<C>, x: World<C>, pins: set<C>, c: C, k: C)
    requires Formed(w) && Formed(x) && Inv(x) && c in w.t.live && c in w.t.parent && c in x.t.live && pins <= x.t.live
    requires Shrunk(w.t, x.t) && k in x.t.live && Excess(x, c) == 0 && Up(w.t, c) in x.t.live
    requires forall y :: y in pins ==> y in w.t.live && w.t.depth[y] > w.t.depth[c]
    requires (k == c || k in w.t.items[c]) && !Anchored(w.t, k)
    ensures Exposed(x, pins + {c}, Up(w.t, c), c, k)
  {
    assert ChildRight(w.t, c) && ChildRight(x.t, c);
    if k != c {
      assert ChildRight(w.t, k) && ChildRight(x.t, k);
      assert Ancestor(x.t, k, 1) == Ancestor(x.t, c, 0) == c;
      BelowIsIdle(x, k, c);
    }
    if Anchored(x.t, k) {
      AnchoredBefore(w.t, x.t, k);
    }
  }

  /** A child of c that nothing holds outlasts the own pass of c, if there is one, and is struck by
      the next. */
  lemma ChildIsStruck<C>(w: World<C>, pins: set<C>, c: C, cfg: Settings, k: C) returns (orders: seq<seq<(C, bool)>>)
    requires Inv(w) && Formed(w) && c in w.t.live && Clients(w, c) > 0 && Lists(w, c) && Complete(w) && PassAbove(w, c)
    requires Boundless(cfg) && Guarded(w, pins, c, cfg) && Spares(w, c, cfg)
    requires (k in w.t.items[c] && (c in w.t.counting ==> !Sheds(w, c))) || (k == c && c !in w.t.counting)
    requires !Anchored(w.t, k)
    ensures NeverFails(orders) && Formed(Also(w, pins)) && Lost(Releasing(Also(w, pins), c, pins, cfg, orders))
  {
    hide Guarded, Clients, Anchored, Unheld, Endangers, Sheds, PassAbove, Spares;
    orders := SlowOrders(w, c, cfg);
    var x, p := Unheld(w, c, c in w.t.counting, cfg, First(orders)), Up(w.t, c);
    Level(w, pins, c, cfg, orders);
    ChildIsExposed(w, pins, c, cfg, orders, k);
    var left := Struck(x, pins + {c}, p, cfg, c, k);
    BrokenUp(Also(w, pins), c, pins, cfg, orders, left);
    NeverFailsMore(orders, left);
    orders := orders + left;
  }

  lemma SlowOrders<C>(w: World<C>, c: C, cfg: Settings) returns (orders: seq<seq<(C, bool)>>)
    requires Inv(w) && Formed(w) && c in w.t.live && Clients(w, c) > 0 && Lists(w, c) && Complete(w)
    requires Boundless(cfg) && (c in w.t.counting ==> !Sheds(w, c))
    ensures NeverFails(orders)
    ensures if c in w.t.counting then |orders| == 1 && Enumerates(First(orders), Unpinned(w, c).free) else orders == []
    ensures w.t.items[c] <= Unheld(w, c, c in w.t.counting, cfg, First(orders)).t.live
  {
    orders := [];
    ChildrenLive(w.t, c);
    if c in w.t.counting {
      var order := SlowPass(w, c, cfg);
      orders := [order];
    } else {
      UnpinnedIs(w, c);
    }
  }

  lemma ChildIsExposed<C>(w: World<C>, pins: set<C>, c: C, cfg: Settings, orders: seq<seq<(C, bool)>>, k: C)
    requires Inv(w) && Formed(w) && c in w.t.live && Clients(w, c) > 0 && Lists(w, c) && Complete(w) && PassAbove(w, c)
    requires Guarded(w, pins, c, cfg) && (k == c || k in w.t.items[c]) && !Anchored(w.t, k)
    requires c in w.t.counting ==> Enumerates(First(orders), Unpinned(w, c).free)
    requires var x := Unheld(w, c, c in w.t.counting, cfg, First(orders));
             Steady(w, x, Up(w.t, c)) && pins + {c} <= x.t.live && w.t.items[c] <= x.t.live
    ensures var x, p := Unheld(w, c, c in w.t.counting, cfg, First(orders)), Up(w.t, c);
            && Exposed(x, pins + {c}, p, c, k) && Complete(x) && Lists(x, p) && (p in x.t.counting || PassAbove(x, p))
  {
    hide Anchored, Clients, Unheld, Unpinned, Forgotten;
    var x, p := Unheld(w, c, c in w.t.counting, cfg, First(orders)), Up(w.t, c);
    UnheldComplete(w, c, c in w.t.counting, cfg, First(orders));
    ExposedAbove(w, x, pins, c, k);
    PassAboveStays(w, x, p);
  }

  /** What one level hands to the next when no child of c was taken. */
  lemma Level<C>(w: World<C>, pins: set<C>, c: C, cfg: Settings, orders: seq<seq<(C, bool)>>)
    requires Inv(w) && Formed(w) && c in w.t.live && Clients(w, c) > 0 && Lists(w, c)
    requires Boundless(cfg) && Guarded(w, pins, c, cfg) && Spares(w, c, cfg)
    requires if c in w.t.counting then |orders| == 1 && Enumerates(First(orders), Unpinned(w, c).free) else orders == []
    requires w.t.items[c] <= Unheld(w, c, c in w.t.counting, cfg, First(orders)).t.live
    ensures var x, p := Unheld(w, c, c in w.t.counting, cfg, First(orders)), Up(w.t, c);
            && Steady(w, x, p) && Clients(x, p) > 0 && pins + {c} <= x.t.live && c in x.t.parent && Up(x.t, c) == p
            && Formed(Also(w, pins)) && Playable(Also(w, pins), c, cfg, orders)
            && Passed(Also(w, pins), c, cfg, orders) == Also(x, pins + {c})
            && (Starts(Offered(Also(w, pins), c), c, cfg) <==> c in w.t.counting)
  {
    BoundlessStarts(w, c, cfg);
    FormedAlso(w, pins);
    ListingAlso(w, pins, c, cfg);
    ListedIsUnpinned(w, c);
    GuardedPass(w, pins, c, cfg, orders);
  }

  /** Where k endangers the release of c, some orders in which nothing throws end it badly. */
  lemma {:induction false} EndangeredRelease<C>(w: World<C>, pins: set<C>, c: C, cfg: Settings, k: C)
      returns (orders: seq<seq<(C, bool)>>)
    requires Inv(w) && Formed(w) && c in w.t.live && Clients(w, c) > 0 && Complete(w) && Anchored(w.t, c)
    requires Boundless(cfg) && Guarded(w, pins, c, cfg) && Endangers(w, c, 0, k)
    ensures NeverFails(orders) && Formed(Also(w, pins)) && Lost(Releasing(Also(w, pins), c, pins, cfg, orders))
    decreases w.t.depth[c]
  {
    hide Sheds, Unheld, Endangers, PassAbove, Clients, NeverFails, Enumerates, Guarded;
    EndangersAbove(w, c, 0, k);
    if y :| y in w.t.items[c] && !Anchored(w.t, y) {
      orders := ChildIsStruck(w, pins, c, cfg, y);
    } else {
      orders := HigherOrders(w, c, cfg, k);
      var x, p := Unheld(w, c, c in w.t.counting, cfg, First(orders)), Up(w.t, c);
      Level(w, pins, c, cfg, orders);
      UnheldComplete(w, c, c in w.t.counting, cfg, First(orders));
      HigherGuard(w, x, pins, c, cfg);
      var left := EndangeredRelease(x, pins + {c}, p, cfg, k);
      BrokenUp(Also(w, pins), c, pins, cfg, orders, left);
      NeverFailsMore(orders, left);
      orders := orders + left;
    }
  }

  lemma HigherGuard<C>(w: World<C>, x: World<C>, pins: set<C>, c: C, cfg: Settings)
    requires Formed(w) && Formed(x) && c in w.t.live && Lists(w, c) && Guarded(w, pins, c, cfg)
    requires Steady(w, x, Up(w.t, c)) && pins <= x.t.live && c in x.t.live && Anchored(w.t, c)
    requires forall k :: k in w.t.items[c] ==> Anchored(w.t, k)
    ensures Guarded(x, pins + {c}, Up(w.t, c), cfg) && Anchored(x.t, Up(w.t, c))
  {
    assert ChildRight(x.t, c);
    ChildrenAnchored(w, x, c);
    GuardedUp(w, x, pins, c, cfg);
    AnchoredUp(x.t, c);
  }

  /** The orders for the own pass of c, if there is one, that leave k for those above. */
  lemma HigherOrders<C>(w: World<C>, c: C, cfg: Settings, k: C) returns (orders: seq<seq<(C, bool)>>)
    requires Inv(w) && Formed(w) && c in w.t.live && Clients(w, c) > 0 && Lists(w, c) && Complete(w) && Anchored(w.t, c)
    requires Boundless(cfg) && Endangers(w, c, 0, k) && forall y :: y in w.t.items[c] ==> Anchored(w.t, y)
    ensures NeverFails(orders)
    ensures if c in w.t.counting then |orders| == 1 && Enumerates(First(orders), Unpinned(w, c).free) else orders == []
    ensures var x := Unheld(w, c, c in w.t.counting, cfg, First(orders));
            w.t.items[c] <= x.t.live && Up(w.t, c) in x.t.live && Endangers(x, Up(w.t, c), 0, k)
  {
    hide Anchored, Clients, Unheld, Endangers, Enumerates, Forgotten;
    HigherEndangers(w, c, 0, k);
    orders := [];
    if c in w.t.counting {
      var order := HigherOrder(w, c, cfg, k);
      orders := [order];
    } else {
      UnheldSteady(w, c, false, cfg, []);
      EndangersUnpinned(w, c, cfg, k);
    }
    AnchoredItems(w, c, c in w.t.counting, cfg, First(orders));
  }

  lemma HigherEndangers<C>(w: World<C>, c: C, n: nat, k: C)
    requires Formed(w) && c in w.t.live && Endangers(w, c, n, k) && forall y :: y in w.t.items[c] ==> Anchored(w.t, y)
    ensures Endangers(w, Up(w.t, c), if c in w.t.counting then n + 1 else n, k)
  {
    hide Sheds, PassAbove, Deep, Anchored;
  }

  lemma HigherOrder<C>(w: World<C>, c: C, cfg: Settings, k: C) returns (order: seq<(C, bool)>)
    requires Inv(w) && Formed(w) && c in w.t.live && Clients(w, c) > 0 && Lists(w, c) && Complete(w) && Anchored(w.t, c)
    requires Boundless(cfg) && Endangers(w, Up(w.t, c), 1, k)
    ensures NoneFails(order) && Enumerates(order, Unpinned(w, c).free)
    ensures var x := Unheld(w, c, true, cfg, order); Up(w.t, c) in x.t.live && Endangers(x, Up(w.t, c), 0, k)
  {
    hide Anchored, Clients, Unheld, Sheds, PassAbove, Deep, Picked, Endangers, Unpinned, Enumerates, Forgotten;
    var p := Up(w.t, c);
    EndangersLive(w, p, 1, k);
    EndangersDeep(w, p, 1, k);
    order := PickyPass(w, c, cfg, k);
    UnheldPicked(w, c, cfg, order, k);
    UnheldSteady(w, c, true, cfg, order);
    EndangersAfter(w, Unheld(w, c, true, cfg, order), p, 0, k);
  }

  lemma AnchoredItems<C>(w: World<C>, c: C, starts: bool, cfg: Settings, order: seq<(C, bool)>)
    requires Inv(w) && Formed(w) && c in w.t.live && Clients(w, c) > 0 && Lists(w, c)
    requires starts ==> Enumerates(order, Unpinned(w, c).free)
    requires forall y :: y in w.t.items[c] ==> Anchored(w.t, y)
    ensures w.t.items[c] <= Unheld(w, c, starts, cfg, order).t.live
  {
    UnheldSteady(w, c, starts, cfg, order);
    forall y | y in w.t.items[c]
      ensures y in Unheld(w, c, starts, cfg, order).t.live
    {
      assert ChildRight(w.t, y);
      AnchoredStays(w.t, Unheld(w, c, starts, cfg, order).t, y);
    }
  }

  lemma UnpinnedPeeled<C>(w: World<C>, c: C, cfg: Settings)
    requires Inv(w) && Formed(w) && c in w.t.live && Clients(w, c) > 0 && Lists(w, c) && Anchored(w.t, c)
    ensures var x := Unheld(w, c, false, cfg, []); Steady(x, w, Up(w.t, c)) && Peeled(x, w, 0)
  {
    hide Anchored, Deep;
    UnheldSteady(w, c, false, cfg, []);
    UnpinnedIs(w, c);
  }

  /** Without a pass nothing changes above. */
  lemma EndangersUnpinned<C>(w: World<C>, c: C, cfg: Settings, k: C)
    requires Inv(w) && Formed(w) && c in w.t.live && Clients(w, c) > 0 && Lists(w, c) && Anchored(w.t, c)
    requires Endangers(w, Up(w.t, c), 0, k)
    ensures var x := Unheld(w, c, false, cfg, []); Endangers(x, Up(w.t, c), 0, k)
  {
    hide Anchored, Endangers, Steady, Peeled, Clients, Unheld;
    var x, p := Unheld(w, c, false, cfg, []), Up(w.t, c);
    UnheldSteady(w, c, false, cfg, []);
    UnpinnedPeeled(w, c, cfg);
    EndangersBefore(x, w, p, 0, 0, k);
  }

  /** A release that is not safe, with orders in which nothing throws that show it. */
  lemma UnsafeRelease<C>(w: World<C>, c: C, cfg: Settings) returns (orders: seq<seq<(C, bool)>>)
    requires Inv(w) && Formed(w) && c in w.t.live && Clients(w, c) > 0 && Complete(w)
    requires Boundless(cfg) && !Safe(w, c)
    ensures NeverFails(orders) && Lost(Releasing(w, c, {}, cfg, orders))
  {
    assert Also(w, {}) == w by { assert w.held + {} == w.held; }
    if Lists(w, c) && (c in w.t.counting || PassAbove(w, c)) && !Anchored(w.t, c) {
      if c in w.t.counting {
        ListedIsUnpinned(w, c);
        BoundlessNeverDeclines(cfg, |Unpinned(w, c).free|);
        orders := WholeIsLost(w, {}, c, cfg);
      } else {
        orders := ChildIsStruck(w, {}, c, cfg, c);
      }
    } else {
      var k :| k in w.t.live && Endangers(w, c, 0, k);
      EndangersAbove(w, c, 0, k);
      orders := EndangeredRelease(w, {}, c, cfg, k);
    }
  }

  lemma LostIsWrong<C>(h: Held<C>, c: C, o: Outcome<C>)
    requires Lost(o)
    ensures o != Impossible && !Accurate(h, c, o)
  {
    if o.Returned? {
      var b :| b in o.w.t.live && Excess(o.w, b) < 0;
      assert Sound(o.w) ==> Right(o.w.t, o.w.refs, o.w.held, b);
    }
  }

  /** Where no limit comes in the way and nothing throws, a release with automatic clean-up returns
      and leaves every reference accounted for, whatever the orders of the list, if and only if it is
      safe. */
  lemma ReleaseIsRightIff<C>(h: Held<C>, c: C, cfg: Settings)
    requires Accounted(h) && Formed(h.w) && c in h.w.t.live && h.handles[c] > 0 && Boundless(cfg)
    ensures (forall orders :: NeverFails(orders) ==>
               var o := Releasing(h.w, c, {}, cfg, orders); o == Impossible || Accurate(h, c, o))
            <==> Safe(h.w, c)
  {
    hide Safe, Accurate, Releasing, NeverFails, Inv;
    FormedHeld(h, c);
    if Safe(h.w, c) {
      forall orders | NeverFails(orders)
        ensures var o := Releasing(h.w, c, {}, cfg, orders); o == Impossible || Accurate(h, c, o)
      {
        SafeIsRight(h, c, cfg, orders);
      }
    } else {
      Unforgotten(h);
      var orders := UnsafeRelease(h.w, c, cfg);
      LostIsWrong(h, c, Releasing(h.w, c, {}, cfg, orders));
    }
  }

  /** A context that has had no children starts no pass. Its release returns whatever the order of
      the list if and only if it leaves its parent in use, or something at or below the context
      cannot be reclaimed: else the pass of its parent may take it. */
  lemma LeafReturnsIff<C>(h: Held<C>, c: C, cfg: Settings)
    requires Accounted(h) && Formed(h.w) && c in h.w.t.live && h.handles[c] > 0 && Lists(h.w, c)
    requires c !in h.w.t.counting && cfg.automatic
    requires var p := Up(h.w.t, c);
             Lists(h.w, p) ==>
               && p in h.w.t.counting && !Declines(cfg, false, |h.w.free + {c, p}|)
               && Affords(cfg, Whole(h.w.t, c))
    ensures (forall orders :: NeverFails(orders) ==> Releasing(h.w, c, {}, cfg, orders) != Gone) <==>
            !Lists(h.w, Up(h.w.t, c)) || Anchored(h.w.t, c)
  {
    FormedHeld(h, c);
    var p := Up(h.w.t, c);
    assert Also(h.w, {}) == h.w by { assert h.w.held + {} == h.w.held; }
    if x :| x in h.w.t.live && Below(h.w.t, x, c) && Unreclaimable(h.w.t, x) {
      BelowHasParent(h.w.t, x, c);
      forall orders
        ensures Releasing(h.w, c, {}, cfg, orders) != Gone
      {
        UnreclaimableKeeps(h.w, c, {}, cfg, orders, x);
      }
    } else if !Lists(h.w, p) {
      forall orders
        ensures Releasing(h.w, c, {}, cfg, orders) != Gone
      {
        SecureIsRight(h, c, cfg, orders);
      }
    } else {
      Unforgotten(h);
      var orders := LeafIsLost(h.w, c, cfg);
    }
  }

  lemma LeafIsLost<C>(w: World<C>, c: C, cfg: Settings) returns (orders: seq<seq<(C, bool)>>)
    requires Inv(w) && Formed(w) && c in w.t.live && Clients(w, c) > 0 && Lists(w, c) && c !in w.t.counting
    requires Complete(w)
    requires var p := Up(w.t, c);
             Lists(w, p) && p in w.t.counting && !Declines(cfg, false, |w.free + {c, p}|)
    requires cfg.automatic && !Anchored(w.t, c) && Affords(cfg, Whole(w.t, c))
    ensures NeverFails(orders) && Releasing(w, c, {}, cfg, orders) == Gone
  {
    hide Inv, Clients, Reclaimable, Whole, Anchored, Enumerates, Unpinned, Listing, Starts, CleanUp, Forgotten;
    var u, p := Unpinned(w, c), Up(w.t, c);
    LeafStarts(w, c, cfg);
    LeafExposed(w, c, cfg);
    var order := PartIsStruck(u, {c}, p, cfg, Whole(w.t, c));
    orders := [order] + [];
    ReleasingUp(w, c, {}, cfg, orders);
  }

  lemma LeafStarts<C>(w: World<C>, c: C, cfg: Settings)
    requires Inv(w) && Formed(w) && c in w.t.live && Clients(w, c) > 0 && Lists(w, c) && c !in w.t.counting
    ensures !Starts(Offered(w, c), c, cfg) && Listing(w, c) == Also(Unpinned(w, c), {c})
  {
    ListingAlso(w, {}, c, cfg);
    assert Also(w, {}) == w by { assert w.held + {} == w.held; }
    assert {} + {c} == {c};
  }

  /** The leaf starts no pass, and two levels up it is listed like its parent. */
  lemma LeafExposed<C>(w: World<C>, c: C, cfg: Settings)
    requires Inv(w) && Formed(w) && c in w.t.live && Clients(w, c) > 0 && Lists(w, c) && !Anchored(w.t, c)
    requires Lists(w, Up(w.t, c)) && c !in w.t.counting && Complete(w)
    ensures var u, p := Unpinned(w, c), Up(w.t, c);
            && u.t == w.t && u.refs.Keys == w.t.live && Inv(u) && Formed(u) && Clients(u, p) > 0 && Lists(u, p)
            && var v := Unpinned(u, p);
               && Formed(v) && Reclaimable(v, Whole(w.t, c)) && Whole(w.t, c) <= v.free && c in Whole(w.t, c)
               && v.free == w.free + {c, p}
  {
    hide Right, Anchored, Reclaimable, Whole, PassAbove, Forgotten, Clients;
    var u, p := Unpinned(w, c), Up(w.t, c);
    UnpinnedUp(w, c);
    UnforgottenUnpinned(w, c);
    UnpinnedIs(w, c);
    LeafListed(u, p, c);
    assert w.free + {c} + {p} == w.free + {c, p};
  }

  lemma LeafListed<C>(u: World<C>, p: C, c: C)
    requires Inv(u) && Formed(u) && p in u.t.live && Clients(u, p) > 0 && Lists(u, p) && p != c
    requires c in u.t.live && u.refs[c] == Min(u.t, c) && !Anchored(u.t, c) && Complete(u)
    ensures var v := Unpinned(u, p);
            && Formed(v) && Reclaimable(v, Whole(u.t, c)) && Whole(u.t, c) <= v.free && c in Whole(u.t, c)
            && v.free == u.free + {p}
  {
    hide Right, Anchored, Reclaimable, Whole, PassAbove, Forgotten, Clients;
    UnforgottenUnpinned(u, p);
    UnpinnedIs(u, p);
    WholeIsListed(Unpinned(u, p), c);
  }

  // ---------------------------------------------------------------------------------------
  // A release that gives a reference back twice
  // ---------------------------------------------------------------------------------------

  /** A chain of three contexts of which a client holds the last. Below it are a leaf that the file
      system cannot make again and a context with a leaf of its own. */
  function Chain(): Held<nat> {
    Held(World(Tree({0, 1, 2, 3, 4, 5}, map[1 := 0, 2 := 1, 3 := 2, 4 := 2, 5 := 3],
                    map[0 := {1}, 1 := {2}, 2 := {3, 4}, 3 := {5}, 4 := {}, 5 := {}],
                    map[0 := 0, 1 := 1, 2 := 2, 3 := 3, 4 := 3, 5 := 4], {0, 1, 2, 3}, {1, 2, 3, 5}, {}, {}),
               map[0 := 3, 1 := 3, 2 := 4, 3 := 2, 4 := 1, 5 := 1], {1, 2}, {3, 4, 5}, {3, 4, 5}),
         map[0 := 0, 1 := 0, 2 := 1, 3 := 0, 4 := 0, 5 := 0])
  }

  lemma ChainShape()
    ensures Shape(Chain().w.t)
  {
    var t := Chain().w.t;
    assert ChildRight(t, 1) && ChildRight(t, 2) && ChildRight(t, 3) && ChildRight(t, 4) && ChildRight(t, 5);
  }

  lemma ChainNode(x: nat)
    requires x <= 5
    ensures var h := Chain(); Right(h.w.t, h.w.refs, h.w.held, x) && Agrees(h, x)
  {
    var t, held := Chain().w.t, Chain().w.held;
    assert |{3, 4}| == 2;
    assert Pinning(t, held, x) == if x == 0 then {1} else if x == 1 then {2} else {};
  }

  lemma ChainAccounts()
    ensures Accounted(Chain()) && Formed(Chain().w)
  {
    hide Right, Agrees, Shape;
    ChainShape();
    forall x | x in Chain().w.t.live
      ensures Right(Chain().w.t, Chain().w.refs, Chain().w.held, x) && Agrees(Chain(), x)
    {
      ChainNode(x);
    }
  }

  lemma ChainAnchors()
    requires Shape(Chain().w.t)
    ensures var t := Chain().w.t;
            && Below(t, 4, 2) && Below(t, 4, 4) && 4 in t.parent && Unreclaimable(t, 4) && !Anchored(t, 3) && Deep(t, 3, 1)
  {
    var t := Chain().w.t;
    assert Ancestor(t, 4, 1) == Ancestor(t, 2, 0) == 2;
    assert Ancestor(t, 4, 0) == 4;
    assert Ancestor(t, 5, 1) == Ancestor(t, 3, 0) == 3;
    forall x, n: nat | x in t.live && Ancestor(t, x, n) == 3
      ensures x == 3 || x == 5
    {
      ChainAbove(x, n);
    }
  }

  lemma {:induction false} ChainAbove(x: nat, n: nat)
    requires Shape(Chain().w.t) && x <= 5 && Ancestor(Chain().w.t, x, n) == 3
    ensures x == 3 || x == 5
  {
    if x != 3 && n > 0 && x != 0 {
      ChainAbove(Chain().w.t.parent[x], n - 1);
    }
  }

  lemma ChainIsEndangered()
    requires Formed(Chain().w) && !Anchored(Chain().w.t, 3) && Deep(Chain().w.t, 3, 1) && Anchored(Chain().w.t, 4)
    ensures Endangers(Chain().w, 2, 0, 3)
  {
    hide Anchored, Deep;
    var w := Chain().w;
    assert |{3, 4}| == 2;
    assert Lists(w, 2) && Lists(w, 1) && PassAbove(w, 2);
    assert !Loose(w, 4) && w.t.items[3] != {};
    assert !Sheds(w, 2);
    assert Loose(w, 3) && 3 in w.t.items[2];
  }

  /** Its release returns, nothing throws, and the parent of the context is left with a reference too
      few: the first pass may take the leaf alone, and the second takes what is above it. */
  lemma ReferenceGivenTwice(cfg: Settings) returns (orders: seq<seq<(nat, bool)>>)
    requires Boundless(cfg)
    ensures Accounted(Chain()) && Formed(Chain().w) && Chain().handles[2] > 0 && NeverFails(orders)
    ensures var o := Releasing(Chain().w, 2, {}, cfg, orders); o.Returned? && Broken(o.w)
  {
    hide Releasing, Broken, Right, Agrees, Anchored, Below, Endangers, Deep;
    ChainAccounts();
    ChainAnchors();
    FormedHeld(Chain(), 2);
    Unforgotten(Chain());
    ChainHolds();
    ChainIsEndangered();
    orders := UnsafeRelease(Chain().w, 2, cfg);
    UnreclaimableKeeps(Chain().w, 2, {}, cfg, orders, 4);
  }

  lemma ChainHolds()
    requires Shape(Chain().w.t) && Below(Chain().w.t, 4, 4) && Unreclaimable(Chain().w.t, 4)
    ensures Anchored(Chain().w.t, 4)
  {
  }
}
