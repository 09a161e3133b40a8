/** Who is on the free list after an acquire, a release, a reclaim and a discovery. */
module FreeListOffers {
  import opened FreeList
  import opened FreeListPass
  import opened FreeListClients
  import opened PinnedPass

  /** An idle context that the list takes: any that has a parent, and the childless root of a metadata
      tree. */
  predicate Welcome<C(==)>(t: Tree<C>, x: C)
    requires x in t.items
  {
    x in t.parent || (x in t.metadata && t.items[x] == {})
  }

  /** Whoever becomes idle and is welcome is listed, and otherwise nobody comes or goes. */
  ghost predicate OfferedAt<C>(w: World<C>, w': World<C>, x: C)
    requires x in w.t.items && x in w.refs && x in w'.t.items && x in w'.refs
  {
    x in w'.flag <==> x in w.flag || (Excess(w, x) > 0 && Excess(w', x) == 0 && Welcome(w.t, x))
  }

  lemma {:induction false} ReleaseOffers<C>(w: World<C>, c: C, x: C)
    requires Inv(w) && Formed(w) && c in w.t.live && Clients(w, c) > 0 && x in w.t.live
    ensures var w' := Release(w, c); OfferedAt(w, w', x) && (x in w'.free <==> x in w'.flag)
    decreases w.t.depth[c]
  {
    hide Pins, ChildRight;
    ReleaseKeeps(w, c);
    if Lists(w, c) {
      var u, p := Unpinned(w, c), w.t.parent[c];
      ListedIsUnpinned(w, c);
      ReleasePinned(w, c);
      UnpinnedIs(w, c);
      ParentIsAbove(w, c);
      ReleaseOffers(u, p, x);
      ReleaseKeeps(u, p);
      assert Same(u, Release(u, p), c);
      assert Right(w.t, w.refs, w.held, c);
    } else {
      assert Right(w.t, w.refs, w.held, c);
    }
  }

  lemma ParentIsAbove<C>(w: World<C>, c: C)
    requires Formed(w) && c in w.t.parent
    ensures c in w.t.live && w.t.parent[c] in w.t.live && w.t.depth[w.t.parent[c]] < w.t.depth[c]
  {
    assert ChildRight(w.t, c);
  }

  /** Whoever is listed and still idle stays listed, whoever is acquired or pinned is not, and nobody else
      comes. */
  lemma {:induction false} AcquireUnlists<C>(w: World<C>, c: C, x: C)
    requires Inv(w) && Formed(w) && c in w.t.live && x in w.t.live
    ensures var w' := Acquire(w, c);
            (x in w'.flag <==> x in w.flag && Excess(w', x) == 0) && (x in w'.free <==> x in w'.flag)
    decreases w.t.depth[c]
  {
    AcquireKeeps(w, c);
    if w.refs[c] == Min(w.t, c) && c in w.t.parent && c !in w.held {
      ParentIsAbove(w, c);
      UnlistKeeps(w, c);
      AcquireUnlists(Unlist(w, c), w.t.parent[c], x);
    }
  }

  /** The parent that had only its minimum has it still, and is listed then if it was not and is welcome
      without the child. */
  lemma ReclaimOffers<C>(w: World<C>, c: C)
    requires Sound(w) && c in w.t.parent && w.t.items[c] == {}
    ensures var p, w' := w.t.parent[c], Reclaim(w, c);
            && p in w.t.items && p in w.refs && p in w'.t.items
            && (p in w'.flag <==> p in w.flag || (Excess(w, p) == 0 && Welcome(w'.t, p)))
            && (p in w'.free <==> p in w.free || (p in w'.flag && p !in w.flag))
            && forall x :: x in w'.t.live && x != p ==> (x in w'.flag <==> x in w.flag) && (x in w'.free <==> x in w.free)
  {
    ReclaimIs(w, c);
    var p := w.t.parent[c];
    assert ChildRight(w.t, c);
    assert Right(w.t, w.refs, w.held, p);
    assert |w.t.items[p] - {c}| == |w.t.items[p]| - 1;
  }

  /** A child that is found has the one reference of its owner, no children, its own kind and nobody to
      pin; it is listed, and its parent has a child and a reference more. Nobody else changes. */
  lemma DiscoverIs<C>(w: World<C>, p: C, k: C, kind: Kind)
    requires Inv(w) && Formed(w) && p in w.t.live && k !in w.t.live && w.refs[p] > Min(w.t, p)
    requires k !in w.t.supports && k !in w.t.overmounted && k !in w.t.metadata
    ensures var w' := Discover(w, p, k, kind);
            && w'.t.live == w.t.live + {k} && k in w'.t.parent && w'.t.parent[k] == p && k in w'.t.items
            && w'.t.items[k] == {} && w'.t.items[p] == w.t.items[p] + {k} && p in w'.t.counting
            && w'.refs == w.refs[p := w.refs[p] + 1][k := 1] && w'.held == w.held
            && w'.flag == w.flag + {k} && w'.free == w.free + {k}
            && (k in w'.t.supports <==> kind.supports) && (k in w'.t.overmounted <==> kind.overmounted)
            && (k in w'.t.metadata <==> kind.metadata)
            && forall x :: x in w.t.live && x != p ==> w'.t.items[x] == w.t.items[x]
  {
    AcquireIs(w, p);
  }
}
