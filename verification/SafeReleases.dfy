/** Releases with automatic clean-up that return with nothing lost: whatever throws and however little
    the limits leave of a pass, and those that are safe as long as nothing throws. */
module SafeReleases {
  import opened FreeList
  import opened FreeListPass
  import opened FreeListClients
  import opened PinnedPass
  import opened AutomaticCleaning

  // ---------------------------------------------------------------------------------------
  // Releases that are safe
  // ---------------------------------------------------------------------------------------

  ghost function Up<C>(t: Tree<C>, c: C): (p: C)
    requires Shape(t) && c in t.parent
    ensures p == t.parent[c] && p in t.live && t.depth[p] < t.depth[c]
  {
    assert ChildRight(t, c);
    t.parent[c]
  }

  /** The release of c reaches above c and starts a pass there, unless it declines. */
  ghost predicate PassAbove<C>(w: World<C>, c: C)
    requires Formed(w) && c in w.t.live
    decreases w.t.depth[c]
  {
    c in w.t.parent &&
    var p := Up(w.t, c);
    Lists(w, p) && (p in w.t.counting || PassAbove(w, p))
  }

  /** c may be released: if its own pass may start, something at or below c holds it; if a pass may
      start above while the release of c waits, something holds each of its children as well, for
      else c, having lost a child, would let its parent go twice. And so on upwards. */
  ghost predicate Secure<C>(w: World<C>, c: C)
    requires Formed(w) && c in w.t.live
    decreases w.t.depth[c]
  {
    Lists(w, c) ==>
      && (c in w.t.counting ==> Anchored(w.t, c))
      && (PassAbove(w, c) ==> Anchored(w.t, c) && forall k :: k in w.t.items[c] ==> Anchored(w.t, k))
      && Secure(w, Up(w.t, c))
  }

  /** Idle, and nothing at or below it keeps a pass from taking it. */
  ghost predicate Loose<C>(w: World<C>, k: C)
    requires Formed(w)
  {
    k in w.t.live && Excess(w, k) == 0 && !Anchored(w.t, k)
  }

  /** Something lies n levels below k. */
  ghost predicate Deep<C>(t: Tree<C>, k: C, n: nat)
    requires Shape(t)
  {
    exists x {:trigger Ancestor(t, x, n)} :: x in t.live && Ancestor(t, x, n) == k
  }

  /** A pass in which nothing throws cannot but take a child of c. */
  ghost predicate Sheds<C>(w: World<C>, c: C)
    requires Formed(w) && c in w.t.live
  {
    exists k :: k in w.t.items[c] && Loose(w, k) && w.t.items[k] == {}
  }

  /** k is a child of c, or of a context above that the release of c reaches, and some pass further
      up may take it while that release waits. n passes have been started by then, and each takes at
      least the lowest level of what is loose: k must lie deep enough to outlast them. If the first of
      the passes takes a child of the very context that starts it, the parent is let go at once, and
      no other pass follows. */
  ghost predicate Endangers<C>(w: World<C>, c: C, n: nat, k: C)
    requires Formed(w) && c in w.t.live
    decreases w.t.depth[c]
  {
    && Lists(w, c) && !(n == 0 && c in w.t.counting && Sheds(w, c))
    && var n' := if c in w.t.counting then n + 1 else n;
       || (k in w.t.items[c] && PassAbove(w, c) && Loose(w, k) && Deep(w.t, k, n'))
       || Endangers(w, Up(w.t, c), n', k)
  }

  /** c may be released as long as nothing throws and no limit comes in the way of a pass. */
  ghost predicate Safe<C>(w: World<C>, c: C)
    requires Formed(w) && c in w.t.live
  {
    && (Lists(w, c) && (c in w.t.counting || PassAbove(w, c)) ==> Anchored(w.t, c))
    && forall k :: k in w.t.live ==> !Endangers(w, c, 0, k)
  }

  ghost predicate NeverFails<C>(orders: seq<seq<(C, bool)>>) {
    forall i :: 0 <= i < |orders| ==> NoneFails(orders[i])
  }

  /** Nobody idle that could be reclaimed is missing from the list. */
  ghost predicate Complete<C>(w: World<C>)
    requires Formed(w)
  {
    forall x :: x in w.t.live ==> !Forgotten(w, x)
  }

  /** Either kind of release that is known to go well. */
  ghost predicate Trusted<C>(w: World<C>, c: C, cfg: Settings, orders: seq<seq<(C, bool)>>)
    requires Formed(w) && c in w.t.live
  {
    cfg.automatic ==> Secure(w, c) || (Boundless(cfg) && NeverFails(orders) && Safe(w, c) && Complete(w))
  }

  // ---------------------------------------------------------------------------------------
  // Levels
  // ---------------------------------------------------------------------------------------

  lemma BelowIsIdle<C>(w: World<C>, x: C, c: C)
    requires Sound(w) && x in w.t.live && Below(w.t, x, c) && c in w.t.live && w.refs[c] == Min(w.t, c)
    ensures w.refs[x] == Min(w.t, x)
  {
    var n: nat :| Ancestor(w.t, x, n) == c;
    assert Right(w.t, w.refs, w.held, x);
    if w.refs[x] > Min(w.t, x) {
      AncestorsAreBusy(w, x, n);
    }
  }

  lemma {:induction false} AncestorSum<C>(t: Tree<C>, x: C, n: nat, m: nat)
    requires Shape(t) && x in t.live
    ensures Ancestor(t, x, n + m) == Ancestor(t, Ancestor(t, x, n), m)
    decreases n
  {
    if n > 0 && x in t.parent {
      assert ChildRight(t, x);
      AncestorSum(t, t.parent[x], n - 1, m);
    } else if n > 0 {
      assert Ancestor(t, x, n + m) == x == Ancestor(t, x, m);
    }
  }

  lemma AnchoredAbove<C>(t: Tree<C>, z: C, k: C)
    requires Shape(t) && z in t.live && Below(t, z, k) && Anchored(t, z)
    ensures Anchored(t, k)
  {
    var x :| x in t.live && Below(t, x, z) && Unreclaimable(t, x);
    var n: nat :| Ancestor(t, x, n) == z;
    var m: nat :| Ancestor(t, z, m) == k;
    AncestorSum(t, x, n, m);
    assert Below(t, x, k);
  }

  /** What lies below a loose context is loose. */
  lemma LooseBelow<C>(w: World<C>, z: C, k: C)
    requires Sound(w) && Formed(w) && Loose(w, k) && z in w.t.live && Below(w.t, z, k)
    ensures Loose(w, z)
  {
    BelowIsIdle(w, z, k);
    if Anchored(w.t, z) {
      AnchoredAbove(w.t, z, k);
    }
  }

  lemma LooseIsReclaimable<C>(w: World<C>, k: C)
    requires Formed(w) && Loose(w, k)
    ensures !Unreclaimable(w.t, k) && k in w.t.parent
  {
    assert Ancestor(w.t, k, 0) == k;
    assert Below(w.t, k, k);
  }

  /** Something lies one level below whoever has a child. */
  lemma DeepOne<C>(t: Tree<C>, k: C)
    requires Shape(t) && k in t.parent && k in t.live
    ensures Deep(t, k, 0) && (Deep(t, k, 1) <==> t.items[k] != {})
  {
    assert Ancestor(t, k, 0) == k;
    if y :| y in t.items[k] {
      assert ChildRight(t, y);
      assert Ancestor(t, y, 1) == Ancestor(t, k, 0);
    }
    if x :| x in t.live && Ancestor(t, x, 1) == k {
      assert x in t.parent ==> ChildRight(t, x) && Ancestor(t, x, 1) == Ancestor(t, t.parent[x], 0);
    }
  }

  /** What a pass leaves as it was. */
  ghost predicate Steady<C>(w: World<C>, w': World<C>, a: C)
    requires Formed(w) && Formed(w')
  {
    && Shrunk(w.t, w'.t) && a in w'.t.live
    && (forall y :: y in w'.t.live && w.t.depth[y] <= w.t.depth[a] ==> Excess(w', y) == Excess(w, y))
    && (forall x :: x in w.t.parent && Unreclaimable(w.t, x) ==> x in w'.t.live)
  }

  lemma AnchoredStays<C>(t: Tree<C>, t': Tree<C>, c: C)
    requires Shape(t) && Shape(t') && Shrunk(t, t') && c in t.parent
    requires forall x :: x in t.parent && Unreclaimable(t, x) ==> x in t'.live
    ensures Anchored(t, c) ==> c in t'.live && Anchored(t', c)
  {
    if x :| x in t.live && Below(t, x, c) && Unreclaimable(t, x) {
      BelowHasParent(t, x, c);
      BelowStays(t, t', x, c);
    }
  }

  lemma AnchoredBefore<C>(t: Tree<C>, t': Tree<C>, c: C)
    requires Shape(t) && Shape(t') && Shrunk(t, t') && Anchored(t', c)
    ensures Anchored(t, c)
  {
    var x :| x in t'.live && Below(t', x, c) && Unreclaimable(t', x);
    BelowStays(t, t', x, c);
  }

  lemma {:induction false} PassAboveStays<C>(w: World<C>, w': World<C>, a: C)
    requires Formed(w) && Formed(w') && Steady(w, w', a)
    ensures PassAbove(w', a) <==> PassAbove(w, a)
    decreases w.t.depth[a]
  {
    if a in w.t.parent {
      assert ChildRight(w.t, a) && ChildRight(w'.t, a);
      PassAboveStays(w, w', w.t.parent[a]);
    }
  }

  lemma {:induction false} SecureStays<C>(w: World<C>, w': World<C>, a: C)
    requires Formed(w) && Formed(w') && Steady(w, w', a) && Secure(w, a)
    ensures Secure(w', a)
    decreases w.t.depth[a]
  {
    if Lists(w, a) {
      assert ChildRight(w.t, a) && ChildRight(w'.t, a);
      SecureStays(w, w', w.t.parent[a]);
      PassAboveStays(w, w', a);
      AnchoredStays(w.t, w'.t, a);
      forall k | k in w'.t.items[a]
        ensures Anchored(w.t, k) ==> Anchored(w'.t, k)
      {
        assert ChildRight(w'.t, k);
        AnchoredStays(w.t, w'.t, k);
      }
    }
  }

  // ---------------------------------------------------------------------------------------
  // What a safe release leaves
  // ---------------------------------------------------------------------------------------

  ghost predicate SettledAt<C>(w: World<C>, c: C, z: World<C>, x: C)
    requires x in w.t.items && x in w.refs && x in z.t.items && x in z.refs
  {
    Clients(z, x) == Clients(w, x) - One(x, c) && (Forgotten(z, x) ==> Forgotten(w, x))
  }

  /** Whoever is held still is there still. */
  ghost predicate Keeps<C>(w: World<C>, c: C, z: World<C>)
    requires Formed(w)
  {
    forall x :: x in w.t.live && Clients(w, x) > One(x, c) ==> x in z.t.live
  }

  /** From w to z one handle on c is gone, and contexts that nobody held and passes took. */
  ghost predicate Settled<C>(w: World<C>, c: C, z: World<C>)
    requires Formed(w)
  {
    && Inv(z) && Formed(z) && Shrunk(w.t, z.t) && z.held <= w.held && Keeps(w, c, z)
    && forall x {:trigger SettledAt(w, c, z, x)} :: x in z.t.live ==> SettledAt(w, c, z, x)
  }

  lemma ReleaseSettles<C>(w: World<C>, c: C)
    requires Inv(w) && Formed(w) && c in w.t.live && Clients(w, c) > 0
    ensures Settled(w, c, Release(w, c))
  {
    hide Right, Pins, Release;
    ReleaseKeeps(w, c);
    ReleaseHeld(w, c);
    forall x | x in w.t.live
      ensures SettledAt(w, c, Release(w, c), x)
    {
      ReleaseClients(w, c, x);
      ReleaseForgets(w, c, x);
    }
  }

  lemma UnpinnedForgets<C>(w: World<C>, c: C, x: C)
    requires Sound(w) && c in w.t.parent && c in w.t.live && x in w.t.live && w.refs[c] - 1 == Min(w.t, c)
    ensures Forgotten(Unpinned(w, c), x) ==> Forgotten(w, x)
  {
  }

  /** The world with c's pin written off, after the pass if one starts. */
  ghost function Unheld<C>(w: World<C>, c: C, starts: bool, cfg: Settings, order: seq<(C, bool)>): (x: World<C>)
    requires Inv(w) && Formed(w) && c in w.t.live && Clients(w, c) > 0 && Lists(w, c)
    requires starts ==> Enumerates(order, Unpinned(w, c).free)
    ensures Inv(x) && Formed(x) && Shrunk(w.t, x.t)
  {
    ListedIsUnpinned(w, c);
    if starts then
      CleanUpCounts(Unpinned(w, c), cfg, false, order);
      CleanUp(Unpinned(w, c), cfg, false, order).0
    else Unpinned(w, c)
  }

  ghost predicate UnheldAt<C>(w: World<C>, c: C, p: C, x: World<C>, y: C)
    requires y in w.t.items && y in w.refs && y in x.t.items && y in x.refs
  {
    && Clients(x, y) == Clients(w, y) - One(y, c) + One(y, p) && (Forgotten(x, y) ==> Forgotten(w, y))
    && Excess(x, y) == Excess(w, y) - One(y, c)
  }

  lemma {:induction false} LoopExcess<C>(s: Pass<C>, order: seq<(C, bool)>, quota: int, x: C)
    requires PassInv(s) && Passable(s) && Enumerates(order, s.todo) && x in s.w.t.live
    requires x in Loop(s, order, quota).w.t.live
    ensures Excess(Loop(s, order, quota).w, x) == Excess(s.w, x)
    ensures Loop(s, order, quota).w.held <= s.w.held
    decreases |order|
  {
    hide Excess;
    if order != [] && !(quota > 0 && s.ret >= quota) {
      var y, fails := order[0].0, order[0].1;
      TurnedIs(s, y, fails);
      IdleInPass(s, y);
      TurnExcess(s, y, fails, x);
      LoopExcess(Turn(s, y, fails), order[1..], quota, x);
    }
  }

  lemma TurnExcess<C>(s: Pass<C>, y: C, fails: bool, x: C)
    requires PassInv(s) && Passable(s) && y in s.todo && x in s.w.t.live && Passable(Turn(s, y, fails))
    requires x in Turn(s, y, fails).w.t.live
    ensures Excess(Turn(s, y, fails).w, x) == Excess(s.w, x) && Turn(s, y, fails).w.held <= s.w.held
  {
    IdleInPass(s, y);
    PassIsSound(s);
    TurnAt(s, s.w, y, fails);
    EffectExcess(s.w, y, fails, x);
    if y in s.w.t.parent && s.w.t.items[y] == {} {
      ReclaimIs(s.w, y);
    }
  }

  lemma UnheldIs<C>(w: World<C>, c: C, starts: bool, cfg: Settings, order: seq<(C, bool)>)
    requires Inv(w) && Formed(w) && c in w.t.live && Clients(w, c) > 0 && Lists(w, c)
    requires starts ==> Enumerates(order, Unpinned(w, c).free)
    ensures var x, p := Unheld(w, c, starts, cfg, order), w.t.parent[c];
            && p in x.t.live && x.held <= w.held - {c} && Keeps(w, c, x)
            && forall y {:trigger UnheldAt(w, c, p, x, y)} :: y in x.t.live ==> UnheldAt(w, c, p, x, y)
  {
    hide CleanUp, Enumerates, Clients, UnheldAt, Keeps, Unheld, Pins;
    var x, p := Unheld(w, c, starts, cfg, order), w.t.parent[c];
    UnheldKeeps(w, c, starts, cfg, order);
    forall y | y in x.t.live
      ensures UnheldAt(w, c, p, x, y)
    {
      UnheldEach(w, c, starts, cfg, order, y);
    }
    UnheldEach(w, c, starts, cfg, order, p);
  }

  lemma UnheldEach<C>(w: World<C>, c: C, starts: bool, cfg: Settings, order: seq<(C, bool)>, y: C)
    requires Inv(w) && Formed(w) && c in w.t.live && Clients(w, c) > 0 && Lists(w, c)
    requires starts ==> Enumerates(order, Unpinned(w, c).free)
    requires y in Unheld(w, c, starts, cfg, order).t.live
    ensures var x := Unheld(w, c, starts, cfg, order);
            y in w.t.items && y in w.refs && UnheldAt(w, c, w.t.parent[c], x, y) && x.held <= w.held - {c}
  {
    hide CleanUp, Enumerates, Forgotten, Excess, Clients, Pins, Unpinned, Lists;
    var u := Unpinned(w, c);
    ListedIsUnpinned(w, c);
    TreeKeys(w);
    UnpinnedAt(w, c, y);
    if starts {
      UnheldPass(u, cfg, order, y);
    }
  }

  lemma UnpinnedAt<C>(w: World<C>, c: C, y: C)
    requires Inv(w) && Formed(w) && c in w.t.live && Clients(w, c) > 0 && Lists(w, c) && y in w.t.live
    ensures var u := Unpinned(w, c);
            u.t == w.t && y in w.t.items && y in w.refs && y in u.refs && UnheldAt(w, c, w.t.parent[c], u, y)
            && u.held == w.held - {c}
  {
    hide Forgotten, Excess;
    ListedIsUnpinned(w, c);
    UnpinnedIs(w, c);
    ReleasePinned(w, c);
    UnpinnedExcess(w, c, y);
    UnpinnedClients(w, c, y);
    UnpinnedForgets(w, c, y);
  }

  lemma UnpinnedExcess<C>(w: World<C>, c: C, y: C)
    requires Formed(w) && c in w.t.live && Lists(w, c) && y in w.t.live && Formed(Unpinned(w, c))
    ensures Excess(Unpinned(w, c), y) == Excess(w, y) - One(y, c)
  {
  }

  lemma UnheldKeeps<C>(w: World<C>, c: C, starts: bool, cfg: Settings, order: seq<(C, bool)>)
    requires Inv(w) && Formed(w) && c in w.t.live && Clients(w, c) > 0 && Lists(w, c)
    requires starts ==> Enumerates(order, Unpinned(w, c).free)
    ensures var x := Unheld(w, c, starts, cfg, order);
            w.t.parent[c] in x.t.live && Keeps(w, c, x)
  {
    hide CleanUp, Enumerates;
    var u, x, p := Unpinned(w, c), Unheld(w, c, starts, cfg, order), w.t.parent[c];
    ListedIsUnpinned(w, c);
    ReleasePinned(w, c);
    forall y | y in w.t.live && (y == p || Clients(w, y) > One(y, c))
      ensures y in x.t.live
    {
      UnpinnedClients(w, c, y);
      if starts {
        BusyStays(u, cfg, order, y);
      }
    }
  }

  lemma BusyStays<C>(w: World<C>, cfg: Settings, order: seq<(C, bool)>, p: C)
    requires Inv(w) && Formed(w) && Enumerates(order, w.free) && p in w.t.live && Clients(w, p) > 0
    ensures p in CleanUp(w, cfg, false, order).0.t.live
  {
    CleanUpAccounts(w, cfg, false, order);
  }

  lemma UnheldPass<C>(w: World<C>, cfg: Settings, order: seq<(C, bool)>, y: C)
    requires Inv(w) && Formed(w) && Enumerates(order, w.free)
    requires y in w.t.live && y in CleanUp(w, cfg, false, order).0.t.live
    ensures var x := CleanUp(w, cfg, false, order).0;
            Clients(x, y) == Clients(w, y) && (Forgotten(x, y) ==> Forgotten(w, y)) && Excess(x, y) == Excess(w, y)
            && x.held <= w.held
  {
    hide Inv, Clients, Forgotten, Excess, Enumerates;
    CleanUpClients(w, cfg, false, order, y);
    CleanUpForgets(w, cfg, false, order, y);
    CleanUpExcess(w, cfg, order, y);
  }

  lemma CleanUpExcess<C>(w: World<C>, cfg: Settings, order: seq<(C, bool)>, y: C)
    requires Inv(w) && Formed(w) && Enumerates(order, w.free)
    requires y in w.t.live && y in CleanUp(w, cfg, false, order).0.t.live
    ensures Excess(CleanUp(w, cfg, false, order).0, y) == Excess(w, y)
    ensures CleanUp(w, cfg, false, order).0.held <= w.held
  {
    hide Loop, Enumerates, Shape;
    if !Declines(cfg, false, |w.free|) {
      PassStarts(w);
      LoopExcess(Pass(w.(free := {}), w.free, {}, 0), order, cfg.maxAtOnce, y);
    }
  }

  lemma ListingAlso<C>(w: World<C>, pins: set<C>, c: C, cfg: Settings)
    requires Inv(w) && Formed(w) && c in w.t.live && Clients(w, c) > 0 && Lists(w, c)
    ensures Listing(Also(w, pins), c) == Also(Unpinned(w, c), pins + {c})
    ensures Starts(Offered(Also(w, pins), c), c, cfg) <==> Starts(Offered(w, c), c, cfg)
  {
    ListedIsUnpinned(w, c);
    UnpinnedIs(w, c);
    assert w.held + pins == w.held - {c} + (pins + {c});
  }

  function First<C>(orders: seq<seq<(C, bool)>>): seq<(C, bool)> {
    if orders == [] then [] else orders[0]
  }

  /** The world after c's own pass, with c and pins pinning their parents, in terms of the world in
      which they do not. */
  lemma PassedPinned<C>(w: World<C>, pins: set<C>, c: C, cfg: Settings, orders: seq<seq<(C, bool)>>)
    requires Inv(w) && Formed(w) && c in w.t.live && Clients(w, c) > 0 && Lists(w, c)
    requires Formed(Also(w, pins)) && Playable(Also(w, pins), c, cfg, orders)
    requires c !in pins && forall y :: y in pins && y in w.t.live ==> w.t.depth[y] > w.t.depth[c]
    requires Starts(Offered(w, c), c, cfg) ==> Enumerates(First(orders), Unpinned(w, c).free)
    requires Undisturbed(w.t, Unheld(w, c, Starts(Offered(w, c), c, cfg), cfg, First(orders)).t, pins)
    ensures var x := Unheld(w, c, Starts(Offered(w, c), c, cfg), cfg, First(orders));
            && w.t.parent[c] in x.t.live
            && Passed(Also(w, pins), c, cfg, orders) ==
               if w.t.items[c] <= x.t.live then Also(x, pins + {c}) else Also(Release(x, w.t.parent[c]), pins)
  {
    ListedIsUnpinned(w, c);
    ListingAlso(w, pins, c, cfg);
    UnheldIs(w, c, Starts(Offered(w, c), c, cfg), cfg, First(orders));
    ChildrenLive(w.t, c);
    assert ChildRight(w.t, c);
    if Starts(Offered(w, c), c, cfg) {
      PendingMore(Unpinned(w, c), pins, c);
      CleanUpPinned(Unpinned(w, c), pins, c, cfg, false, orders[0]);
    }
  }

  lemma PendingMore<C>(w: World<C>, pins: set<C>, c: C)
    requires Inv(w) && Formed(w) && Pending(w, {}, c)
    requires c !in pins && forall y :: y in pins && y in w.t.live ==> w.t.depth[y] > w.t.depth[c]
    ensures Pending(w, pins, c)
  {
    assert ChildRight(w.t, c);
  }

  /** Whether some pass may start while the release of c waits or runs. */
  ghost predicate PassAhead<C>(w: World<C>, c: C, cfg: Settings)
    requires Formed(w) && c in w.t.live
  {
    cfg.automatic && Lists(w, c) && (c in w.t.counting || PassAbove(w, c))
  }

  /** pins are contexts below c whose releases wait, and no pass ahead takes them or a child of theirs. */
  ghost predicate Guarded<C>(w: World<C>, pins: set<C>, c: C, cfg: Settings)
    requires Formed(w) && c in w.t.live
  {
    forall y {:trigger y in pins} :: y in pins ==>
      && y in w.t.live && y in w.t.parent && w.t.depth[y] > w.t.depth[c]
      && (PassAhead(w, c, cfg) ==> Anchored(w.t, y) && forall k :: k in w.t.items[y] ==> Anchored(w.t, k))
  }

  /** What the pass took, seen from c's parent. */
  lemma UnheldSteady<C>(w: World<C>, c: C, starts: bool, cfg: Settings, order: seq<(C, bool)>)
    requires Inv(w) && Formed(w) && c in w.t.live && Clients(w, c) > 0 && Lists(w, c)
    requires starts ==> Enumerates(order, Unpinned(w, c).free)
    ensures var x := Unheld(w, c, starts, cfg, order);
            Steady(w, x, Up(w.t, c)) && Clients(x, Up(w.t, c)) > 0
  {
    var x, p := Unheld(w, c, starts, cfg, order), Up(w.t, c);
    UnheldIs(w, c, starts, cfg, order);
    forall y | y in x.t.live && w.t.depth[y] <= w.t.depth[p]
      ensures Excess(x, y) == Excess(w, y)
    {
      assert UnheldAt(w, c, p, x, y);
    }
    assert UnheldAt(w, c, p, x, p) && Right(w.t, w.refs, w.held, p);
    forall y | y in w.t.parent && Unreclaimable(w.t, y)
      ensures y in x.t.live
    {
      assert ChildRight(w.t, y);
      UnheldLeaves(w, c, starts, cfg, order, y);
    }
  }

  lemma UnheldLeaves<C>(w: World<C>, c: C, starts: bool, cfg: Settings, order: seq<(C, bool)>, y: C)
    requires Inv(w) && Formed(w) && c in w.t.live && Clients(w, c) > 0 && Lists(w, c)
    requires starts ==> Enumerates(order, Unpinned(w, c).free)
    requires y in w.t.parent && y in w.t.live && Unreclaimable(w.t, y)
    ensures y in Unheld(w, c, starts, cfg, order).t.live
  {
    ListedIsUnpinned(w, c);
    if starts {
      CleanUpTakesReclaimable(Unpinned(w, c), cfg, false, order, y);
    }
  }

  /** Anchored contexts, and those whose children are all anchored, are not disturbed. */
  lemma GuardedStay<C>(w: World<C>, w': World<C>, pins: set<C>, c: C, cfg: Settings)
    requires Formed(w) && Formed(w') && c in w.t.live && Guarded(w, pins, c, cfg)
    requires Shrunk(w.t, w'.t) && (forall x :: x in w.t.parent && Unreclaimable(w.t, x) ==> x in w'.t.live)
    requires PassAhead(w, c, cfg) || w'.t == w.t
    ensures Undisturbed(w.t, w'.t, pins) && pins <= w'.t.live
  {
    forall y | y in pins
      ensures y in w'.t.live && w.t.items[y] <= w'.t.live
    {
      ChildrenLive(w.t, y);
      if PassAhead(w, c, cfg) {
        AnchoredStays(w.t, w'.t, y);
        forall k | k in w.t.items[y]
          ensures k in w'.t.live
        {
          assert ChildRight(w.t, k);
          AnchoredStays(w.t, w'.t, k);
        }
      }
    }
  }

  /** One level up the guard still holds, and c has joined it. */
  lemma GuardedUp<C>(w: World<C>, x: World<C>, pins: set<C>, c: C, cfg: Settings)
    requires Formed(w) && Formed(x) && c in w.t.live && Lists(w, c) && Guarded(w, pins, c, cfg)
    requires Steady(w, x, Up(w.t, c)) && pins <= x.t.live && c in x.t.live
    requires cfg.automatic && PassAbove(w, c) ==> Anchored(x.t, c) && forall k :: k in x.t.items[c] ==> Anchored(x.t, k)
    ensures Guarded(x, pins + {c}, Up(w.t, c), cfg)
  {
    var p := Up(w.t, c);
    assert ChildRight(w.t, c) && ChildRight(x.t, c) && Up(x.t, c) == p;
    PassAboveStays(w, x, p);
    assert PassAhead(x, p, cfg) ==> PassAbove(w, c);
    forall y | y in pins + {c}
      ensures y in x.t.live && y in x.t.parent && x.t.depth[y] > x.t.depth[p]
      ensures PassAhead(x, p, cfg) ==> Anchored(x.t, y) && forall k :: k in x.t.items[y] ==> Anchored(x.t, k)
    {
      if PassAhead(x, p, cfg) && y != c {
        ChildrenAnchored(w, x, y);
      }
    }
  }

  lemma ChildrenAnchored<C>(w: World<C>, x: World<C>, y: C)
    requires Formed(w) && Formed(x) && Shrunk(w.t, x.t) && y in x.t.live && y in w.t.parent
    requires forall z :: z in w.t.parent && Unreclaimable(w.t, z) ==> z in x.t.live
    requires Anchored(w.t, y) && forall k :: k in w.t.items[y] ==> Anchored(w.t, k)
    ensures Anchored(x.t, y) && forall k :: k in x.t.items[y] ==> Anchored(x.t, k)
  {
    AnchoredStays(w.t, x.t, y);
    forall k | k in x.t.items[y]
      ensures Anchored(x.t, k)
    {
      assert ChildRight(x.t, k) && k in w.t.items[y];
      AnchoredStays(w.t, x.t, k);
    }
  }

  /** Composing a level with those above it. */
  lemma SettledUp<C>(w: World<C>, c: C, starts: bool, cfg: Settings, order: seq<(C, bool)>, z: World<C>)
    requires Inv(w) && Formed(w) && c in w.t.live && Clients(w, c) > 0 && Lists(w, c)
    requires starts ==> Enumerates(order, Unpinned(w, c).free)
    requires Settled(Unheld(w, c, starts, cfg, order), Up(w.t, c), z)
    ensures Settled(w, c, z) && c !in z.held
  {
    var x, p := Unheld(w, c, starts, cfg, order), Up(w.t, c);
    UnheldIs(w, c, starts, cfg, order);
    ShrunkMore(w.t, x.t, z.t);
    forall y | y in z.t.live
      ensures SettledAt(w, c, z, y)
    {
      assert SettledAt(x, p, z, y) && UnheldAt(w, c, p, x, y);
    }
    forall y | y in w.t.live && Clients(w, y) > One(y, c)
      ensures y in z.t.live
    {
      assert y in x.t.live && UnheldAt(w, c, p, x, y);
    }
  }

  /** Where a pass of its own may start, something holds c, so that the pass spares it. */
  ghost predicate Spares<C>(w: World<C>, c: C, cfg: Settings)
    requires Formed(w) && c in w.t.live
  {
    cfg.automatic && Lists(w, c) && c in w.t.counting ==> Anchored(w.t, c)
  }

  /** The pass that a release may start which does not lose c, and what it leaves for the level above. */
  lemma GuardedPass<C>(w: World<C>, pins: set<C>, c: C, cfg: Settings, orders: seq<seq<(C, bool)>>)
    requires Inv(w) && Formed(w) && c in w.t.live && Clients(w, c) > 0 && Lists(w, c)
    requires Spares(w, c, cfg) && Guarded(w, pins, c, cfg)
    requires Formed(Also(w, pins)) && Playable(Also(w, pins), c, cfg, orders)
    ensures Starts(Offered(w, c), c, cfg) ==> Enumerates(First(orders), Unpinned(w, c).free)
    ensures var x, p := Unheld(w, c, Starts(Offered(w, c), c, cfg), cfg, First(orders)), Up(w.t, c);
            && Steady(w, x, p) && Clients(x, p) > 0 && pins + {c} <= x.t.live
            && c in x.t.parent && x.t.parent[c] == p
            && Passed(Also(w, pins), c, cfg, orders) ==
               if w.t.items[c] <= x.t.live then Also(x, pins + {c}) else Also(Release(x, p), pins)
  {
    ListingAlso(w, pins, c, cfg);
    var starts, order := Starts(Offered(w, c), c, cfg), First(orders);
    var x := Unheld(w, c, starts, cfg, order);
    UnheldSteady(w, c, starts, cfg, order);
    GuardedLeft(w, pins, c, cfg, orders, x);
    PassedPinned(w, pins, c, cfg, orders);
  }

  /** Whom that pass leaves in place. */
  lemma GuardedLeft<C>(w: World<C>, pins: set<C>, c: C, cfg: Settings, orders: seq<seq<(C, bool)>>, x: World<C>)
    requires Inv(w) && Formed(w) && c in w.t.live && Clients(w, c) > 0 && Lists(w, c)
    requires Spares(w, c, cfg) && Guarded(w, pins, c, cfg)
    requires Starts(Offered(w, c), c, cfg) ==> Enumerates(First(orders), Unpinned(w, c).free)
    requires x == Unheld(w, c, Starts(Offered(w, c), c, cfg), cfg, First(orders)) && Steady(w, x, Up(w.t, c))
    ensures c !in pins && Undisturbed(w.t, x.t, pins) && pins + {c} <= x.t.live
    ensures c in x.t.parent && x.t.parent[c] == Up(w.t, c)
  {
    UnpinnedIs(w, c);
    GuardedStay(w, x, pins, c, cfg);
    if Starts(Offered(w, c), c, cfg) {
      AnchoredStays(w.t, x.t, c);
    }
  }

  // ---------------------------------------------------------------------------------------
  // One level of a release in which nothing throws
  // ---------------------------------------------------------------------------------------

  lemma UnforgottenUnpinned<C>(w: World<C>, c: C)
    requires Inv(w) && Formed(w) && c in w.t.live && Clients(w, c) > 0 && Lists(w, c) && Complete(w)
    ensures Inv(Unpinned(w, c)) && Formed(Unpinned(w, c)) && Complete(Unpinned(w, c))
  {
    ListedIsUnpinned(w, c);
    forall x | x in w.t.live
      ensures !Forgotten(Unpinned(w, c), x)
    {
      UnpinnedForgets(w, c, x);
    }
  }

  lemma UnheldComplete<C>(w: World<C>, c: C, starts: bool, cfg: Settings, order: seq<(C, bool)>)
    requires Inv(w) && Formed(w) && c in w.t.live && Clients(w, c) > 0 && Lists(w, c) && Complete(w)
    requires starts ==> Enumerates(order, Unpinned(w, c).free)
    ensures var x := Unheld(w, c, starts, cfg, order);
            Complete(x) && (c in x.t.live ==> Excess(x, c) == 0)
  {
    var x := Unheld(w, c, starts, cfg, order);
    UnheldIs(w, c, starts, cfg, order);
    forall y | y in x.t.live
      ensures !Forgotten(x, y) && (y == c ==> Excess(x, y) == 0)
    {
      assert UnheldAt(w, c, w.t.parent[c], x, y);
    }
  }

  /** What the pass leaves loose was loose before. */
  lemma LooseBefore<C>(w: World<C>, c: C, starts: bool, cfg: Settings, order: seq<(C, bool)>, y: C)
    requires Inv(w) && Formed(w) && c in w.t.live && Clients(w, c) > 0 && Lists(w, c)
    requires starts ==> Enumerates(order, Unpinned(w, c).free)
    requires var x := Unheld(w, c, starts, cfg, order); y in x.t.live && Loose(x, y) && (y != c || Anchored(w.t, c))
    ensures y != c && Loose(w, y)
  {
    var x, p := Unheld(w, c, starts, cfg, order), Up(w.t, c);
    UnheldIs(w, c, starts, cfg, order);
    UnheldSteady(w, c, starts, cfg, order);
    LooseIsReclaimable(x, y);
    AnchoredStays(w.t, x.t, y);
    assert UnheldAt(w, c, p, x, y);
  }

  /** A listed leaf goes. */
  lemma LeavesGo<C>(w: World<C>, c: C, cfg: Settings, order: seq<(C, bool)>, z: C)
    requires Inv(w) && Formed(w) && c in w.t.live && Clients(w, c) > 0 && Lists(w, c) && Complete(w)
    requires Boundless(cfg) && NoneFails(order) && Enumerates(order, Unpinned(w, c).free)
    requires Loose(w, z) && w.t.items[z] == {}
    ensures z !in Unheld(w, c, true, cfg, order).t.live
  {
    var u := Unpinned(w, c);
    UnforgottenUnpinned(w, c);
    UnpinnedIs(w, c);
    LooseIsReclaimable(w, z);
    BoundlessNeverDeclines(cfg, |u.free|);
    PassStarts(u);
    assert !Forgotten(u, z);
    LeafGoes(Pass(u.(free := {}), u.free, {}, 0), order, cfg.maxAtOnce, z);
  }

  /** So whatever is loose after a pass lay one level deeper before it. */
  lemma DeepBefore<C>(w: World<C>, c: C, cfg: Settings, order: seq<(C, bool)>, y: C, n: nat)
    requires Inv(w) && Formed(w) && c in w.t.live && Clients(w, c) > 0 && Lists(w, c) && Complete(w) && Anchored(w.t, c)
    requires Boundless(cfg) && NoneFails(order) && Enumerates(order, Unpinned(w, c).free)
    requires var x := Unheld(w, c, true, cfg, order); y in x.t.live && Loose(x, y) && Deep(x.t, y, n)
    ensures Deep(w.t, y, n + 1)
  {
    var x := Unheld(w, c, true, cfg, order);
    var z :| z in x.t.live && Ancestor(x.t, z, n) == y;
    LooseBelow(x, z, y);
    LooseBefore(w, c, true, cfg, order, z);
    if w.t.items[z] == {} {
      LeavesGo(w, c, cfg, order, z);
    } else {
      var k :| k in w.t.items[z];
      assert ChildRight(w.t, k);
      AncestorStays(w.t, x.t, z, n);
      assert Ancestor(w.t, k, n + 1) == Ancestor(w.t, z, n);
    }
  }

  /** From x back to w: nothing was less loose, all of it lay d levels deeper, and with no pass
      between them both are the same. */
  ghost predicate Peeled<C>(w: World<C>, x: World<C>, d: nat)
    requires Formed(w) && Formed(x)
  {
    && (forall y :: y in x.t.live && Loose(x, y) ==> Loose(w, y))
    && (forall y, n: nat {:trigger Deep(x.t, y, n)} ::
          y in x.t.live && Loose(x, y) && Deep(x.t, y, n) ==> Deep(w.t, y, n + d))
    && (d == 0 ==> x.t == w.t && forall y :: y in w.t.live && Loose(w, y) ==> Loose(x, y))
  }

  lemma UnheldPeeled<C>(w: World<C>, c: C, cfg: Settings, order: seq<(C, bool)>)
    requires Inv(w) && Formed(w) && c in w.t.live && Clients(w, c) > 0 && Lists(w, c) && Complete(w) && Anchored(w.t, c)
    requires Boundless(cfg) && NoneFails(order)
    requires c in w.t.counting ==> Enumerates(order, Unpinned(w, c).free)
    ensures Peeled(w, Unheld(w, c, c in w.t.counting, cfg, order), if c in w.t.counting then 1 else 0)
  {
    var starts := c in w.t.counting;
    var x := Unheld(w, c, starts, cfg, order);
    forall y | y in x.t.live && Loose(x, y)
      ensures Loose(w, y)
    {
      LooseBefore(w, c, starts, cfg, order, y);
    }
    if starts {
      forall y, n: nat | y in x.t.live && Loose(x, y) && Deep(x.t, y, n)
        ensures Deep(w.t, y, n + 1)
      {
        DeepBefore(w, c, cfg, order, y, n);
      }
    } else {
      UnpinnedIs(w, c);
    }
  }

  lemma {:induction false} EndangersBefore<C>(w: World<C>, x: World<C>, a: C, n: nat, d: nat, k: C)
    requires Formed(w) && Formed(x) && a in w.t.live && Steady(w, x, a) && Peeled(w, x, d) && Endangers(x, a, n, k)
    ensures Endangers(w, a, n + d, k)
    decreases w.t.depth[a]
  {
    hide Loose, Deep;
    var n' := if a in x.t.counting then n + 1 else n;
    assert ChildRight(w.t, a) && ChildRight(x.t, a);
    PassAboveStays(w, x, a);
    if Endangers(x, Up(x.t, a), n', k) {
      EndangersBefore(w, x, Up(x.t, a), n', d, k);
    } else {
      assert ChildRight(x.t, k);
    }
  }

  /** In a boundless setting a release starts its pass exactly where the number of children says so. */
  lemma BoundlessStarts<C>(w: World<C>, c: C, cfg: Settings)
    requires Inv(w) && Formed(w) && c in w.t.live && Clients(w, c) > 0 && Lists(w, c) && Boundless(cfg)
    ensures Starts(Offered(w, c), c, cfg) <==> c in w.t.counting
  {
    BoundlessNeverDeclines(cfg, |w.free + {c}|);
  }

  /** The level above of a safe release that goes on. */
  lemma SafeUp<C>(w: World<C>, c: C, cfg: Settings, order: seq<(C, bool)>)
    requires Inv(w) && Formed(w) && c in w.t.live && Clients(w, c) > 0 && Lists(w, c) && Complete(w)
    requires Boundless(cfg) && NoneFails(order) && Safe(w, c)
    requires c in w.t.counting ==> Enumerates(order, Unpinned(w, c).free)
    requires var x := Unheld(w, c, c in w.t.counting, cfg, order); c in x.t.live && w.t.items[c] <= x.t.live
    ensures var x := Unheld(w, c, c in w.t.counting, cfg, order);
            && Up(w.t, c) in x.t.live && Safe(x, Up(w.t, c)) && Complete(x)
            && (PassAbove(w, c) ==> Anchored(x.t, c) && forall k :: k in x.t.items[c] ==> Anchored(x.t, k))
  {
    hide Safe, Unheld, Anchored, Forgotten, Clients;
    var x, p := Unheld(w, c, c in w.t.counting, cfg, order), Up(w.t, c);
    UnheldSteady(w, c, c in w.t.counting, cfg, order);
    UnheldComplete(w, c, c in w.t.counting, cfg, order);
    if PassAbove(w, c) {
      NotShed(w, c, cfg, order);
      SafeAbove(w, c, cfg, order);
      forall k | k in x.t.items[c]
        ensures Anchored(x.t, k)
      {
        assert ChildRight(x.t, k);
        SafeChild(w, c, cfg, order, k);
      }
    } else {
      PassAboveStays(w, x, p);
      SafeBelow(x, p);
    }
  }

  lemma SafeAbove<C>(w: World<C>, c: C, cfg: Settings, order: seq<(C, bool)>)
    requires Inv(w) && Formed(w) && c in w.t.live && Clients(w, c) > 0 && Lists(w, c) && Complete(w)
    requires Boundless(cfg) && NoneFails(order) && Safe(w, c)
    requires c in w.t.counting ==> !Sheds(w, c) && Enumerates(order, Unpinned(w, c).free)
    requires PassAbove(w, c) && c in Unheld(w, c, c in w.t.counting, cfg, order).t.live
    ensures var x := Unheld(w, c, c in w.t.counting, cfg, order);
            Up(w.t, c) in x.t.live && Safe(x, Up(w.t, c)) && Anchored(x.t, c)
  {
    hide Unheld, Anchored, Clients, Peeled, Sheds, Lists, Forgotten;
    var x, p := Unheld(w, c, c in w.t.counting, cfg, order), Up(w.t, c);
    UnheldSteady(w, c, c in w.t.counting, cfg, order);
    assert ChildRight(x.t, c);
    UnheldPeeled(w, c, cfg, order);
    AnchoredStays(w.t, x.t, c);
    AnchoredUp(x.t, c);
    SafeOver(w, x, c);
  }

  lemma SafeOver<C>(w: World<C>, x: World<C>, c: C)
    requires Formed(w) && Formed(x) && c in w.t.live && Lists(w, c) && Steady(w, x, Up(w.t, c))
    requires Peeled(w, x, if c in w.t.counting then 1 else 0) && Anchored(x.t, Up(w.t, c))
    requires Safe(w, c) && (c in w.t.counting ==> !Sheds(w, c))
    ensures Safe(x, Up(w.t, c))
  {
    hide Peeled, Sheds, Anchored;
    var p, d := Up(w.t, c), if c in w.t.counting then 1 else 0;
    forall k | k in x.t.live
      ensures !Endangers(x, p, 0, k)
    {
      if Endangers(x, p, 0, k) {
        EndangersBefore(w, x, p, 0, d, k);
        EndangersFrom(w, c, d, k);
      }
    }
  }

  lemma EndangersFrom<C>(w: World<C>, c: C, d: nat, k: C)
    requires Formed(w) && c in w.t.live && Lists(w, c) && d == (if c in w.t.counting then 1 else 0)
    requires (c in w.t.counting ==> !Sheds(w, c)) && Endangers(w, Up(w.t, c), d, k)
    ensures k in w.t.live && Endangers(w, c, 0, k)
  {
    hide Sheds;
    EndangersLive(w, Up(w.t, c), d, k);
  }

  lemma {:induction false} EndangersLive<C>(w: World<C>, a: C, n: nat, k: C)
    requires Formed(w) && a in w.t.live && Endangers(w, a, n, k)
    ensures k in w.t.live && Loose(w, k) && k in w.t.parent
    ensures var p := w.t.parent[k]; p in w.t.live && Lists(w, p) && w.t.depth[p] <= w.t.depth[a]
    decreases w.t.depth[a]
  {
    hide Loose, Deep, Sheds, PassAbove;
    var n' := if a in w.t.counting then n + 1 else n;
    if Endangers(w, Up(w.t, a), n', k) {
      EndangersLive(w, Up(w.t, a), n', k);
    } else {
      assert ChildRight(w.t, k);
    }
  }

  lemma SafeBelow<C>(x: World<C>, p: C)
    requires Formed(x) && p in x.t.live && !(Lists(x, p) && (p in x.t.counting || PassAbove(x, p)))
    ensures Safe(x, p)
  {
    forall k | k in x.t.live
      ensures !Endangers(x, p, 0, k)
    {
      if Endangers(x, p, 0, k) {
        EndangersAbove(x, p, 0, k);
      }
    }
  }

  /** Whatever is secure is safe. */
  lemma {:induction false} SecureIsSafe<C>(w: World<C>, c: C)
    requires Formed(w) && c in w.t.live && Secure(w, c)
    ensures Safe(w, c)
  {
    forall k | k in w.t.live
      ensures !Endangers(w, c, 0, k)
    {
      SecureEndangersNone(w, c, 0, k);
    }
  }

  lemma {:induction false} SecureEndangersNone<C>(w: World<C>, a: C, n: nat, k: C)
    requires Formed(w) && a in w.t.live && Secure(w, a)
    ensures !Endangers(w, a, n, k)
    decreases w.t.depth[a]
  {
    hide Anchored, Deep, Sheds;
    if Lists(w, a) {
      SecureEndangersNone(w, Up(w.t, a), if a in w.t.counting then n + 1 else n, k);
    }
  }

  lemma AnchoredUp<C>(t: Tree<C>, c: C)
    requires Shape(t) && c in t.parent && Anchored(t, c)
    ensures Anchored(t, Up(t, c))
  {
    var x :| x in t.live && Below(t, x, c) && Unreclaimable(t, x);
    BelowParent(t, x, c);
  }

  /** Whoever endangers the release of a does so through a pass at a or above. */
  lemma {:induction false} EndangersAbove<C>(w: World<C>, a: C, n: nat, k: C)
    requires Formed(w) && a in w.t.live && Endangers(w, a, n, k)
    ensures Lists(w, a) && PassAbove(w, a) && (n == 0 && a in w.t.counting ==> !Sheds(w, a))
    decreases w.t.depth[a]
  {
    var n' := if a in w.t.counting then n + 1 else n;
    if Endangers(w, Up(w.t, a), n', k) {
      EndangersAbove(w, Up(w.t, a), n', k);
    }
  }

  lemma NotShed<C>(w: World<C>, c: C, cfg: Settings, order: seq<(C, bool)>)
    requires Inv(w) && Formed(w) && c in w.t.live && Clients(w, c) > 0 && Lists(w, c) && Complete(w)
    requires Boundless(cfg) && NoneFails(order)
    requires c in w.t.counting ==> Enumerates(order, Unpinned(w, c).free)
    requires w.t.items[c] <= Unheld(w, c, c in w.t.counting, cfg, order).t.live
    ensures c in w.t.counting ==> !Sheds(w, c)
  {
    if c in w.t.counting && Sheds(w, c) {
      var k :| k in w.t.items[c] && Loose(w, k) && w.t.items[k] == {};
      LeavesGo(w, c, cfg, order, k);
    }
  }

  lemma SafeChild<C>(w: World<C>, c: C, cfg: Settings, order: seq<(C, bool)>, k: C)
    requires Inv(w) && Formed(w) && c in w.t.live && Clients(w, c) > 0 && Lists(w, c) && Complete(w)
    requires Safe(w, c) && PassAbove(w, c) && (c in w.t.counting ==> !Sheds(w, c)) && k in w.t.items[c]
    requires c in w.t.counting ==> Enumerates(order, Unpinned(w, c).free)
    requires var x := Unheld(w, c, c in w.t.counting, cfg, order); k in x.t.live && c in x.t.live
    ensures Anchored(Unheld(w, c, c in w.t.counting, cfg, order).t, k)
  {
    var x := Unheld(w, c, c in w.t.counting, cfg, order);
    UnheldSteady(w, c, c in w.t.counting, cfg, order);
    assert ChildRight(w.t, k);
    if !Anchored(w.t, k) {
      IdleChild(w, c, k);
      DeepOne(w.t, k);
      assert Loose(w, k);
    } else {
      AnchoredStays(w.t, x.t, k);
    }
  }

  /** When only one handle keeps c in use, its children are idle. */
  lemma IdleChild<C>(w: World<C>, c: C, k: C)
    requires Inv(w) && Formed(w) && c in w.t.live && Clients(w, c) > 0 && Lists(w, c) && k in w.t.items[c]
    ensures k in w.t.live && Excess(w, k) == 0
  {
    assert ChildRight(w.t, k);
    assert Right(w.t, w.refs, w.held, k);
    assert Pinning(w.t, w.held, c) == {};
    assert k in Pinning(w.t, w.held, c) <==> k in w.held;
  }

  lemma TrustedUp<C>(w: World<C>, c: C, cfg: Settings, orders: seq<seq<(C, bool)>>)
    requires Inv(w) && Formed(w) && c in w.t.live && Clients(w, c) > 0 && Lists(w, c) && Trusted(w, c, cfg, orders)
    requires Starts(Offered(w, c), c, cfg) ==> orders != [] && Enumerates(First(orders), Unpinned(w, c).free)
    requires var x := Unheld(w, c, Starts(Offered(w, c), c, cfg), cfg, First(orders));
             c in x.t.live && w.t.items[c] <= x.t.live
    ensures var starts := Starts(Offered(w, c), c, cfg);
            var x := Unheld(w, c, starts, cfg, First(orders));
            && Up(w.t, c) in x.t.live && Trusted(x, Up(w.t, c), cfg, if starts then orders[1..] else orders)
            && (cfg.automatic && PassAbove(w, c) ==>
                  Anchored(x.t, c) && forall k :: k in x.t.items[c] ==> Anchored(x.t, k))
  {
    var starts := Starts(Offered(w, c), c, cfg);
    var x, p := Unheld(w, c, starts, cfg, First(orders)), Up(w.t, c);
    UnheldSteady(w, c, starts, cfg, First(orders));
    if cfg.automatic && Secure(w, c) {
      SecureStays(w, x, p);
      if PassAbove(w, c) {
        ChildrenAnchored(w, x, c);
      }
    } else if cfg.automatic {
      BoundlessStarts(w, c, cfg);
      SafeUp(w, c, cfg, First(orders));
      assert NeverFails(if starts then orders[1..] else orders);
    }
  }

  /** A release that goes on to its parent, as a step. */
  lemma ReleasingUp<C>(w: World<C>, c: C, waiting: set<C>, cfg: Settings, orders: seq<seq<(C, bool)>>)
    requires Formed(w) && c in w.t.live && w.refs[c] - 1 == Min(w.t, c) && Playable(w, c, cfg, orders)
    requires var w' := Passed(w, c, cfg, orders);
             waiting + {c} <= w'.t.live && c in w'.t.parent && c in w'.held
    ensures var w' := Passed(w, c, cfg, orders);
            var left := if Starts(Offered(w, c), c, cfg) then orders[1..] else orders;
            var up := Releasing(w', Up(w'.t, c), waiting + {c}, cfg, left);
            Releasing(w, c, waiting, cfg, orders) ==
            if up.Returned? then Returned(up.w.(held := up.w.held - {c}), up.left) else up
  {
    hide Passed, Starts, Playable;
  }

  /** And one that does not. */
  lemma ReleasingEnds<C>(w: World<C>, c: C, waiting: set<C>, cfg: Settings, orders: seq<seq<(C, bool)>>)
    requires Formed(w) && c in w.t.live && w.refs[c] - 1 == Min(w.t, c) && Playable(w, c, cfg, orders)
    requires var w' := Passed(w, c, cfg, orders);
             waiting + {c} <= w'.t.live && !(c in w'.t.parent && c in w'.held)
    ensures Releasing(w, c, waiting, cfg, orders) ==
            Returned(Passed(w, c, cfg, orders), if Starts(Offered(w, c), c, cfg) then orders[1..] else orders)
  {
    hide Passed, Starts, Playable;
  }

  lemma AlsoWithout<C>(z: World<C>, pins: set<C>, c: C)
    requires c !in z.held && c !in pins
    ensures Also(z, pins + {c}).(held := Also(z, pins + {c}).held - {c}) == Also(z, pins)
  {
    assert z.held + (pins + {c}) - {c} == z.held + pins;
  }

  /** Such a release returns and settles. */
  lemma {:induction false} TrustedReturns<C>(w: World<C>, pins: set<C>, c: C, cfg: Settings, orders: seq<seq<(C, bool)>>)
      returns (z: World<C>)
    requires Inv(w) && Formed(w) && c in w.t.live && Clients(w, c) > 0
    requires Trusted(w, c, cfg, orders) && Guarded(w, pins, c, cfg)
    ensures Formed(Also(w, pins))
    ensures var o := Releasing(Also(w, pins), c, pins, cfg, orders);
            o != Impossible ==> o.Returned? && o.w == Also(z, pins) && Settled(w, c, z) && pins + {c} <= z.t.live
    decreases w.t.depth[c]
  {
    FormedAlso(w, pins);
    z := Release(w, c);
    if !Lists(w, c) {
      ReleaseSettles(w, c);
      PlainReturns(w, pins, c, cfg, orders);
    } else if Playable(Also(w, pins), c, cfg, orders) {
      assert Spares(w, c, cfg);
      GuardedPass(w, pins, c, cfg, orders);
      ListingAlso(w, pins, c, cfg);
      var starts, order := Starts(Offered(w, c), c, cfg), First(orders);
      var x, p := Unheld(w, c, starts, cfg, order), Up(w.t, c);
      if w.t.items[c] <= x.t.live {
        TrustedUp(w, c, cfg, orders);
        GuardedUp(w, x, pins, c, cfg);
        z := TrustedReturns(x, pins + {c}, p, cfg, if starts then orders[1..] else orders);
        ReleasingUp(Also(w, pins), c, pins, cfg, orders);
        if Settled(x, p, z) {
          SettledUp(w, c, starts, cfg, order, z);
          AlsoWithout(z, pins, c);
        }
      } else {
        z := Release(x, p);
        ReleaseSettles(x, p);
        SettledUp(w, c, starts, cfg, order, z);
        ReleasingEnds(Also(w, pins), c, pins, cfg, orders);
      }
    } else {
      UnplayableIs(Also(w, pins), c, pins, cfg, orders);
    }
  }

  lemma UnplayableIs<C>(w: World<C>, c: C, waiting: set<C>, cfg: Settings, orders: seq<seq<(C, bool)>>)
    requires Formed(w) && c in w.t.live && w.refs[c] - 1 == Min(w.t, c) && !Playable(w, c, cfg, orders)
    ensures Releasing(w, c, waiting, cfg, orders) == Impossible
  {
  }

  lemma PlainReturns<C>(w: World<C>, pins: set<C>, c: C, cfg: Settings, orders: seq<seq<(C, bool)>>)
    requires Inv(w) && Formed(w) && c in w.t.live && Clients(w, c) > 0 && !Lists(w, c) && pins <= w.t.live
    requires Formed(Also(w, pins))
    ensures Releasing(Also(w, pins), c, pins, cfg, orders) == Returned(Also(Release(w, c), pins), orders)
  {
    hide Sound, CleanUp, Enumerates, Declines, Shrunk;
  }

  /** The account of h after the release of one handle on c that has come to w. */
  function Handed<C(==)>(h: Held<C>, c: C, w: World<C>): Held<C>
    requires w.t.live <= h.handles.Keys
  {
    Held(w, map x | x in w.t.live :: h.handles[x] - One(x, c))
  }

  /** The outcome is a return with every reference accounted for, the list complete, and c and
      whoever is held still in place. */
  ghost predicate Accurate<C>(h: Held<C>, c: C, o: Outcome<C>) {
    && o.Returned? && o.w.t.live <= h.handles.Keys && Accounted(Handed(h, c, o.w))
    && c in o.w.t.live && forall x :: x in h.handles && h.handles[x] > One(x, c) ==> x in o.w.t.live
  }

  lemma SettledAccounts<C>(h: Held<C>, c: C, z: World<C>)
    requires Accounted(h) && Formed(h.w) && c in h.w.t.live && h.handles[c] > 0 && Settled(h.w, c, z)
    ensures z.t.live <= h.handles.Keys && Accounted(Handed(h, c, z))
    ensures forall x :: x in h.handles && h.handles[x] > One(x, c) ==> x in z.t.live
  {
    hide Clients, Forgotten, Shape;
    forall x | x in z.t.live
      ensures Agrees(Handed(h, c, z), x)
    {
      assert Agrees(h, x) && SettledAt(h.w, c, z, x);
    }
    forall x | x in h.handles && h.handles[x] > One(x, c)
      ensures x in z.t.live
    {
      assert Agrees(h, x);
    }
  }

  lemma FormedHeld<C>(h: Held<C>, c: C)
    requires Accounted(h) && c in h.w.t.live && h.handles[c] > 0
    ensures Inv(h.w) && Formed(h.w) && Clients(h.w, c) > 0
  {
    Spare(h, c);
  }

  lemma TrustedIsRight<C>(h: Held<C>, c: C, cfg: Settings, orders: seq<seq<(C, bool)>>)
    requires Accounted(h) && Formed(h.w) && c in h.w.t.live && h.handles[c] > 0 && Trusted(h.w, c, cfg, orders)
    ensures var o := Releasing(h.w, c, {}, cfg, orders); o != Impossible ==> Accurate(h, c, o)
  {
    hide Inv, Accounted, Clients, Releasing, Trusted, Settled;
    FormedHeld(h, c);
    var z := TrustedReturns(h.w, {}, c, cfg, orders);
    assert Also(h.w, {}) == h.w by { assert h.w.held + {} == h.w.held; }
    assert Also(z, {}) == z by { assert z.held + {} == z.held; }
    if Settled(h.w, c, z) {
      SettledAccounts(h, c, z);
    }
  }

  /** A secure release is right, whatever the limits, however the list is handed out and whatever
      throws. */
  lemma SecureIsRight<C>(h: Held<C>, c: C, cfg: Settings, orders: seq<seq<(C, bool)>>)
    requires Accounted(h) && Formed(h.w) && c in h.w.t.live && h.handles[c] > 0
    requires cfg.automatic ==> Secure(h.w, c)
    ensures var o := Releasing(h.w, c, {}, cfg, orders); o != Impossible ==> Accurate(h, c, o)
  {
    hide Inv, Accounted, Accurate, Secure, Releasing;
    TrustedIsRight(h, c, cfg, orders);
  }

  lemma Unforgotten<C>(h: Held<C>)
    requires Accounted(h)
    ensures Formed(h.w) && Complete(h.w)
  {
    forall x | x in h.w.t.live
      ensures !Forgotten(h.w, x)
    {
      assert Agrees(h, x);
    }
  }

  /** A safe release is right where no limit comes in the way and nothing throws, however the list
      is handed out. */
  lemma SafeIsRight<C>(h: Held<C>, c: C, cfg: Settings, orders: seq<seq<(C, bool)>>)
    requires Accounted(h) && Formed(h.w) && c in h.w.t.live && h.handles[c] > 0
    requires Boundless(cfg) && NeverFails(orders) && Safe(h.w, c)
    ensures var o := Releasing(h.w, c, {}, cfg, orders); o != Impossible ==> Accurate(h, c, o)
  {
    hide Inv, Accounted, Accurate, Safe, Releasing, NeverFails;
    Unforgotten(h);
    TrustedIsRight(h, c, cfg, orders);
  }
}
