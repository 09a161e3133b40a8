/** Releases when clean-up is automatic: reaching the minimum lists a context and starts a pass at
    once, while the Release of that context and of those it lets go of is still running. */
module AutomaticCleaning {
  import opened FreeList
  import opened FreeListPass
  import opened FreeListClients
  import opened PinnedPass

  /** What becomes of a release: it returns, with the orders that are left; or a pass that it
      started takes away a context whose own Release is not finished and that is about to be looked
      at again. An order that is none of the list has no outcome. */
  datatype Outcome<C> = Returned(w: World<C>, left: seq<seq<(C, bool)>>) | Gone | Impossible

  /** Whether offering c to the list starts a pass: c goes on it, and its number of children is
      not zero. */
  ghost predicate Starts<C>(w: World<C>, c: C, cfg: Settings)
    requires c in w.t.items && c in w.refs
  {
    && cfg.automatic && c !in w.flag && c in w.t.parent && w.refs[c] <= Min(w.t, c) && c in w.t.counting
    && !Declines(cfg, false, |w.free + {c}|)
  }

  /** One reference less, and then the offer. */
  function Offered<C>(w: World<C>, c: C): World<C>
    requires c in w.refs
  {
    w.(refs := w.refs[c := w.refs[c] - 1])
  }

  function Listing<C(==)>(w: World<C>, c: C): World<C>
    requires c in w.t.items && c in w.refs
  {
    TryToAdd(Offered(w, c), c)
  }

  /** The next order is one of the list, if a pass starts. */
  ghost predicate Playable<C>(w: World<C>, c: C, cfg: Settings, orders: seq<seq<(C, bool)>>)
    requires Formed(w) && c in w.t.live
  {
    Starts(Offered(w, c), c, cfg) ==> orders != [] && Enumerates(orders[0], Listing(w, c).free)
  }

  /** The world after the pass that listing c may start. */
  ghost function Passed<C>(w: World<C>, c: C, cfg: Settings, orders: seq<seq<(C, bool)>>): (w': World<C>)
    requires Formed(w) && c in w.t.live
    requires Playable(w, c, cfg, orders)
    ensures Formed(w') && Shrunk(w.t, w'.t)
  {
    if Starts(Offered(w, c), c, cfg) then
      CleanUpCounts(Listing(w, c), cfg, false, orders[0]);
      CleanUp(Listing(w, c), cfg, false, orders[0]).0
    else Listing(w, c)
  }

  /** orders are those in which the passes are handed the list, one after the other; waiting are
      the contexts whose Release has called this one. */
  ghost function Releasing<C>(w: World<C>, c: C, waiting: set<C>, cfg: Settings, orders: seq<seq<(C, bool)>>)
      : (o: Outcome<C>)
    requires Formed(w) && c in w.t.live
    ensures o.Returned? ==> Formed(o.w) && Shrunk(w.t, o.w.t)
    decreases w.t.depth[c]
  {
    if w.refs[c] - 1 != Min(w.t, c) then Returned(Offered(w, c), orders)
    else if !Playable(w, c, cfg, orders) then Impossible
    else
      var w' := Passed(w, c, cfg, orders);
      var left := if Starts(Offered(w, c), c, cfg) then orders[1..] else orders;
      if !(waiting + {c} <= w'.t.live) then Gone
      else if c in w'.t.parent && c in w'.held then
        ParentNearer(w.t, w'.t, c);
        var o := Releasing(w', w'.t.parent[c], waiting + {c}, cfg, left);
        if o.Returned? then
          ShrunkMore(w.t, w'.t, o.w.t);
          o.(w := o.w.(held := o.w.held - {c}))
        else o
      else Returned(w', left)
  }

  /** What is left of the release of c after its own pass. */
  ghost function Ascending<C>(w: World<C>, c: C, waiting: set<C>, cfg: Settings, orders: seq<seq<(C, bool)>>)
      : (o: Outcome<C>)
    requires Formed(w)
  {
    if !(waiting + {c} <= w.t.live) then Gone
    else if c in w.t.parent && c in w.held then
      ParentNearer(w.t, w.t, c);
      var o := Releasing(w, w.t.parent[c], waiting + {c}, cfg, orders);
      if o.Returned? then o.(w := o.w.(held := o.w.held - {c})) else o
    else Returned(w, orders)
  }

  /** Whoever waits for a release that returns is there still. */
  lemma {:induction false} WaitersAreKept<C>(w: World<C>, c: C, waiting: set<C>, cfg: Settings,
                                             orders: seq<seq<(C, bool)>>)
    requires Formed(w) && c in w.t.live && waiting <= w.t.live && Releasing(w, c, waiting, cfg, orders).Returned?
    ensures waiting + {c} <= Releasing(w, c, waiting, cfg, orders).w.t.live
    decreases w.t.depth[c]
  {
    hide CleanUp, Starts, Enumerates, TryToAdd;
    if w.refs[c] - 1 == Min(w.t, c) {
      var w' := Passed(w, c, cfg, orders);
      if c in w'.t.parent && c in w'.held {
        ParentNearer(w.t, w'.t, c);
        WaitersAreKept(w', w'.t.parent[c], waiting + {c}, cfg,
                       if Starts(Offered(w, c), c, cfg) then orders[1..] else orders);
      }
    }
  }

  lemma ParentNearer<C>(t: Tree<C>, t': Tree<C>, c: C)
    requires Shape(t) && Shape(t') && Shrunk(t, t') && c in t'.live && c in t'.parent
    ensures t'.parent[c] in t'.live && t'.depth[t'.parent[c]] < t.depth[c]
  {
    assert ChildRight(t', c);
  }

  /** Where no pass can start this is the release as such. */
  lemma {:induction false} QuietRelease<C>(w: World<C>, c: C, waiting: set<C>, cfg: Settings, orders: seq<seq<(C, bool)>>)
    requires Formed(w) && c in w.t.live && waiting <= w.t.live
    requires !cfg.automatic || cfg.busy || cfg.resolving
    ensures Releasing(w, c, waiting, cfg, orders) == Returned(Release(w, c), orders)
    decreases w.t.depth[c]
  {
    var w2 := TryToAdd(w.(refs := w.refs[c := w.refs[c] - 1]), c);
    if w.refs[c] - 1 == Min(w.t, c) && c in w.t.parent && c in w.held {
      assert ChildRight(w.t, c);
      QuietRelease(w2, w.t.parent[c], waiting + {c}, cfg, orders);
    }
  }

  // ---------------------------------------------------------------------------------------
  // Releases that return
  // ---------------------------------------------------------------------------------------

  /** x is c or lies below it. */
  ghost predicate Below<C>(t: Tree<C>, x: C, c: C)
    requires Shape(t) && x in t.live
  {
    exists n: nat {:trigger Ancestor(t, x, n)} :: Ancestor(t, x, n) == c
  }

  /** Something at or below c cannot be reclaimed. */
  ghost predicate Anchored<C>(t: Tree<C>, c: C)
    requires Shape(t)
  {
    exists x :: x in t.live && Below(t, x, c) && Unreclaimable(t, x)
  }

  lemma {:induction false} AncestorOnce<C>(t: Tree<C>, x: C, n: nat)
    requires Shape(t) && x in t.live && Ancestor(t, x, n) in t.parent
    ensures Ancestor(t, x, n + 1) == t.parent[Ancestor(t, x, n)]
    decreases n
  {
    if n > 0 && x in t.parent {
      assert ChildRight(t, x);
      AncestorOnce(t, t.parent[x], n - 1);
    } else {
      assert ChildRight(t, x);
      assert Ancestor(t, t.parent[x], 0) == t.parent[x];
    }
  }

  lemma BelowParent<C>(t: Tree<C>, x: C, c: C)
    requires Shape(t) && x in t.live && c in t.parent && Below(t, x, c)
    ensures Below(t, x, t.parent[c])
  {
    var n: nat :| Ancestor(t, x, n) == c;
    AncestorOnce(t, x, n);
  }

  /** A tree that has lost contexts, and x not, has x's ancestors still. */
  lemma {:induction false} AncestorStays<C>(t: Tree<C>, t': Tree<C>, x: C, n: nat)
    requires Shape(t) && Shape(t') && Shrunk(t, t') && x in t'.live
    ensures Ancestor(t', x, n) == Ancestor(t, x, n)
    decreases n
  {
    if n > 0 && x in t.parent {
      assert ChildRight(t', x) && ChildRight(t, x);
      AncestorStays(t, t', t.parent[x], n - 1);
    }
  }

  lemma BelowStays<C>(t: Tree<C>, t': Tree<C>, x: C, c: C)
    requires Shape(t) && Shape(t') && Shrunk(t, t') && x in t'.live
    ensures Below(t, x, c) <==> Below(t', x, c)
    ensures Below(t, x, c) ==> c in t'.live
  {
    if n: nat :| Ancestor(t, x, n) == c {
      AncestorStays(t, t', x, n);
    }
    if n: nat :| Ancestor(t', x, n) == c {
      AncestorStays(t, t', x, n);
    }
  }

  lemma BelowHasParent<C>(t: Tree<C>, x: C, c: C)
    requires Shape(t) && x in t.live && Below(t, x, c) && c in t.parent
    ensures x in t.parent
  {
    var n: nat :| Ancestor(t, x, n) == c;
  }

  /** No pass takes what cannot be reclaimed and has a parent. */
  lemma PassedLeaves<C>(w: World<C>, c: C, cfg: Settings, orders: seq<seq<(C, bool)>>, x: C)
    requires Formed(w) && c in w.t.live && x in w.t.parent && x in w.t.live && Unreclaimable(w.t, x)
    requires Playable(w, c, cfg, orders)
    ensures var w' := Passed(w, c, cfg, orders);
            x in w'.t.live && x in w'.t.parent && Unreclaimable(w'.t, x)
  {
    if Starts(Offered(w, c), c, cfg) {
      CleanUpTakesReclaimable(Listing(w, c), cfg, false, orders[0], x);
    }
  }

  /** Nobody above a context that no pass can reclaim is ever taken: however the list is handed
      out, whatever the limits, the release returns. */
  lemma {:induction false} UnreclaimableKeeps<C>(w: World<C>, c: C, waiting: set<C>, cfg: Settings,
                                                 orders: seq<seq<(C, bool)>>, x: C)
    requires Formed(w) && c in w.t.live
    requires x in w.t.parent && x in w.t.live && Unreclaimable(w.t, x)
    requires forall y :: y in waiting + {c} ==> Below(w.t, x, y)
    ensures Releasing(w, c, waiting, cfg, orders) != Gone
    decreases w.t.depth[c]
  {
    if w.refs[c] - 1 == Min(w.t, c) && Playable(w, c, cfg, orders) {
      var w' := Passed(w, c, cfg, orders);
      PassedLeaves(w, c, cfg, orders, x);
      forall y | y in waiting + {c}
        ensures y in w'.t.live && Below(w'.t, x, y)
      {
        BelowStays(w.t, w'.t, x, y);
      }
      if c in w'.t.parent && c in w'.held {
        BelowParent(w'.t, x, c);
        ParentNearer(w.t, w'.t, c);
        UnreclaimableKeeps(w', w'.t.parent[c], waiting + {c}, cfg,
                           if Starts(Offered(w, c), c, cfg) then orders[1..] else orders, x);
      }
    } else {
    }
  }
}
