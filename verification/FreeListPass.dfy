/** The clean-up pass over the free list. */
module FreeListPass {
  import opened FreeList

  /** A pass under way: what is still to be looked at, what goes back on the list at the end,
      and the count that is held against the quota. */
  datatype Pass<C> = Pass(w: World<C>, todo: set<C>, rejects: set<C>, ret: nat)

  /** Everybody whose flag is set is in exactly one of the three places. */
  ghost predicate Split<C>(s: Pass<C>) {
    && s.w.flag == s.todo + s.rejects + s.w.free
    && s.todo !! s.rejects && s.todo !! s.w.free && s.rejects !! s.w.free
  }

  ghost predicate PassInv<C>(s: Pass<C>) {
    Sound(s.w) && Split(s)
  }

  /** As much as the code itself relies on: links and keys agree and nobody dead is listed. A
      pass that a release starts finds no more, as pins are not in order until the release ends. */
  ghost predicate Formed<C>(w: World<C>) {
    Shape(w.t) && w.refs.Keys == w.t.live && w.free <= w.t.live
  }

  ghost predicate Passable<C>(s: Pass<C>) {
    Formed(s.w) && s.todo <= s.w.t.live && s.rejects <= s.w.t.live && s.todo !! s.rejects
  }

  lemma PassStarts<C>(w: World<C>)
    requires Formed(w)
    ensures var s := Pass(w.(free := {}), w.free, {}, 0);
            Passable(s) && (Inv(w) ==> PassInv(s))
  {
  }

  function Dropped<C(==)>(s: Pass<C>, c: C): Pass<C> {
    s.(w := s.w.(flag := s.w.flag - {c}), todo := s.todo - {c})
  }

  function Rejected<C(==)>(s: Pass<C>, c: C): Pass<C> {
    s.(w := s.w.(flag := s.w.flag + {c}), todo := s.todo - {c}, rejects := s.rejects + {c})
  }

  /** The deleted root of a metadata tree. */
  function Deleted<C(==)>(w: World<C>, c: C): World<C>
    requires c !in w.t.parent
  {
    World(Cut(w.t, c), w.refs - {c}, w.held - {c}, w.flag - {c}, w.free - {c})
  }

  /** One turn of the loop. fails says that reclaiming c throws before it changes anything. */
  function Turn<C(==)>(s: Pass<C>, c: C, fails: bool): Pass<C>
    requires Passable(s) && c in s.todo
  {
    if c !in s.w.t.parent then
      if c !in s.w.t.metadata || s.w.t.items[c] != {} then Dropped(s, c)
      else Pass(Deleted(s.w, c), s.todo - {c}, s.rejects, s.ret + 1)
    else if c in s.w.t.overmounted || c !in s.w.t.supports then Dropped(s, c)
    else if s.w.t.items[c] != {} || s.w.refs[c] > Min(s.w.t, c) || fails then Rejected(s, c)
    else Pass(Reclaim(s.w, c), s.todo - {c}, s.rejects, s.ret + 1)
  }

  lemma RightDeleted<C>(w: World<C>, c: C, x: C)
    requires Sound(w) && c in w.t.live && c !in w.t.parent && w.t.items[c] == {} && x in w.t.live && x != c
    ensures Right(Deleted(w, c).t, Deleted(w, c).refs, Deleted(w, c).held, x)
  {
    assert Right(w.t, w.refs, w.held, x) && Right(w.t, w.refs, w.held, c);
    assert w.held - {c} == w.held;
  }

  lemma DeletedKeeps<C>(w: World<C>, c: C)
    requires Sound(w) && c in w.t.live && c !in w.t.parent && w.t.items[c] == {}
    ensures Sound(Deleted(w, c))
  {
    CutKeepsShape(w.t, c);
    var w' := Deleted(w, c);
    forall x | x in w'.t.live
      ensures Right(w'.t, w'.refs, w'.held, x)
    {
      RightDeleted(w, c, x);
    }
  }

  /** Cutting c takes one from its parent's minimum and one from its count. */
  lemma CutKeepsIdle<C>(t: Tree<C>, refs: map<C, int>, flag: set<C>, c: C)
    requires Shape(t) && refs.Keys == t.live && Idle(t, refs, flag) && c in t.parent && t.items[c] == {}
    requires t.parent[c] in t.live && t.parent[c] != c
    ensures Shape(Cut(t, c)) && Idle(Cut(t, c), refs[t.parent[c] := refs[t.parent[c]] - 1] - {c}, flag - {c})
  {
    CutKeepsShape(t, c);
    assert ChildRight(t, c);
    assert |t.items[t.parent[c]] - {c}| == |t.items[t.parent[c]]| - 1;
  }

  lemma ReclaimKeeps<C>(w: World<C>, c: C)
    requires Sound(w) && c in w.t.parent && w.t.items[c] == {} && w.refs[c] == Min(w.t, c)
    ensures Sound(Reclaim(w, c))
  {
    hide Pins, Right, Cut, Release, Reclaim, ChildRight;
    ReclaimIs(w, c);
    CutKeepsCounts(w.t, w.refs, w.held, c);
    var p := w.t.parent[c];
    CutKeepsIdle(w.t, w.refs, if w.refs[p] == Min(w.t, p) then w.flag + {p} else w.flag, c);
  }

  /** What a pass may do to the tree: take contexts away, and children from those that stay. */
  ghost predicate Shrunk<C>(t: Tree<C>, t': Tree<C>) {
    && t'.live <= t.live && t.items.Keys == t.live && t'.items.Keys == t'.live
    && t.depth.Keys == t.live && t'.depth.Keys == t'.live
    && forall x :: x in t'.live ==>
      && t'.items[x] <= t.items[x] && t'.depth[x] == t.depth[x]
      && (x in t'.counting <==> x in t.counting)
      && (x in t'.supports <==> x in t.supports) && (x in t'.overmounted <==> x in t.overmounted)
      && (x in t'.parent <==> x in t.parent) && (x in t.parent ==> t'.parent[x] == t.parent[x])
  }

  lemma ShrunkMore<C>(t: Tree<C>, t1: Tree<C>, t2: Tree<C>)
    requires Shrunk(t, t1) && Shrunk(t1, t2)
    ensures Shrunk(t, t2)
  {
  }

  /** What one turn does: it looks at c alone, and whoever it takes away was childless. */
  ghost predicate Turned<C>(s: Pass<C>, s': Pass<C>, c: C)
    requires Passable(s) && c in s.todo
  {
    && Passable(s') && Shrunk(s.w.t, s'.w.t)
    && s'.todo == s.todo - {c} && s'.rejects <= s.rejects + {c}
    && s'.w.t.live == (if c in s'.w.t.live then s.w.t.live else s.w.t.live - {c})
    && s'.ret == s.ret + (if c in s'.w.t.live then 0 else 1)
    && (c !in s'.w.t.live ==> s.w.t.items[c] == {})
  }

  lemma CutShrinks<C>(t: Tree<C>, c: C)
    requires Shape(t) && c in t.live && t.items[c] == {} && (c in t.parent ==> t.parent[c] in t.live)
    ensures Shape(Cut(t, c)) && Shrunk(t, Cut(t, c))
  {
    CutKeepsShape(t, c);
  }

  lemma TurnReclaims<C>(s: Pass<C>, c: C)
    requires Passable(s) && c in s.todo && c in s.w.t.parent && s.w.t.items[c] == {}
    ensures Turned(s, Pass(Reclaim(s.w, c), s.todo - {c}, s.rejects, s.ret + 1), c)
  {
    assert ChildRight(s.w.t, c);
    CutShrinks(s.w.t, c);
    hide Shape, Shrunk, Reclaim;
  }

  lemma TurnDeletes<C>(s: Pass<C>, c: C)
    requires Passable(s) && c in s.todo && c !in s.w.t.parent && s.w.t.items[c] == {}
    ensures Turned(s, Pass(Deleted(s.w, c), s.todo - {c}, s.rejects, s.ret + 1), c)
  {
    CutShrinks(s.w.t, c);
    hide Shape, Shrunk;
  }

  lemma TurnStays<C>(s: Pass<C>, c: C)
    requires Passable(s) && c in s.todo
    ensures Turned(s, Dropped(s, c), c) && Turned(s, Rejected(s, c), c)
  {
  }

  /** One turn, whatever the counts and pins are. */
  lemma TurnIs<C>(s: Pass<C>, c: C, fails: bool)
    requires Passable(s) && c in s.todo
    ensures Turned(s, Turn(s, c, fails), c)
  {
    hide Turned;
    TurnStays(s, c);
    if s.w.t.items[c] == {} {
      if c in s.w.t.parent {
        TurnReclaims(s, c);
      } else {
        TurnDeletes(s, c);
      }
    }
  }

  /** A turn keeps the tree right, and whoever it takes away was idle. */
  lemma TurnKeeps<C>(s: Pass<C>, c: C, fails: bool)
    requires PassInv(s) && Passable(s) && c in s.todo
    ensures PassInv(Turn(s, c, fails))
    ensures c !in Turn(s, c, fails).w.t.live ==> s.w.refs[c] == Min(s.w.t, c)
  {
    hide Right, Counted, Release, Cut, Deleted;
    assert s.w.refs[c] == Min(s.w.t, c);
    if s.w.t.items[c] == {} {
      if c in s.w.t.parent {
        ReclaimKeeps(s.w, c);
        ReclaimSplits(s, c);
      } else {
        DeletedKeeps(s.w, c);
        DeletedSplits(s, c);
      }
    }
  }

  lemma ReclaimSplits<C>(s: Pass<C>, c: C)
    requires PassInv(s) && c in s.todo && c in s.w.t.parent && s.w.t.items[c] == {}
    ensures Split(Pass(Reclaim(s.w, c), s.todo - {c}, s.rejects, s.ret + 1))
  {
    ReclaimIs(s.w, c);
    hide Right, Counted, Shape, Reclaim;
  }

  lemma DeletedSplits<C>(s: Pass<C>, c: C)
    requires PassInv(s) && c in s.todo && c !in s.w.t.parent && s.w.t.items[c] == {}
    ensures Split(Pass(Deleted(s.w, c), s.todo - {c}, s.rejects, s.ret + 1))
  {
  }

  // ---------------------------------------------------------------------------------------
  // The loop and the call
  // ---------------------------------------------------------------------------------------

  /** The contexts in the order in which the list hands them out, and whether each fails. */
  ghost predicate Enumerates<C>(order: seq<(C, bool)>, todo: set<C>)
    decreases |order|
  {
    if order == [] then todo == {}
    else order[0].0 in todo && Enumerates(order[1..], todo - {order[0].0})
  }

  /** The loop: once the quota is used up everything left goes back unlooked at. */
  ghost function Loop<C>(s: Pass<C>, order: seq<(C, bool)>, quota: int): (s': Pass<C>)
    requires Passable(s) && Enumerates(order, s.todo)
    ensures Passable(s') && s'.todo == {} && Shrunk(s.w.t, s'.w.t) && s'.w.t.live <= s.w.t.live
    ensures PassInv(s) ==> PassInv(s')
    decreases |order|
  {
    if order == [] then s
    else if quota > 0 && s.ret >= quota then s.(todo := {}, rejects := s.rejects + s.todo)
    else
      var s1 := Turn(s, order[0].0, order[0].1);
      TurnedIs(s, order[0].0, order[0].1);
      var s2 := Loop(s1, order[1..], quota);
      ShrunkMore(s.w.t, s1.w.t, s2.w.t);
      s2
  }

  /** The limits of the manager, whether it is inside a resolve or inside another pass, and
      whether releases start passes. */
  datatype Settings = Settings(maxAtOnce: int, maxInList: int, permanent: int, resolving: bool, busy: bool, automatic: bool)

  /** The early returns. */
  predicate Declines(cfg: Settings, force: bool, n: nat) {
    || cfg.resolving || cfg.busy
    || (!force && cfg.maxInList > 0 && n <= cfg.maxInList)
    || (cfg.permanent > 0 && n <= cfg.permanent)
  }

  ghost function Finished<C>(w: World<C>, order: seq<(C, bool)>, quota: int): (s: Pass<C>)
    requires Formed(w) && Enumerates(order, w.free)
    ensures Passable(s) && s.todo == {} && Shrunk(w.t, s.w.t)
    ensures Inv(w) ==> PassInv(s)
  {
    PassStarts(w);
    Loop(Pass(w.(free := {}), w.free, {}, 0), order, quota)
  }

  ghost function CleanUp<C>(w: World<C>, cfg: Settings, force: bool, order: seq<(C, bool)>): (r: (World<C>, nat))
    requires Formed(w) && Enumerates(order, w.free)
    ensures Formed(r.0) && r.0.t.live <= w.t.live
    ensures Inv(w) ==> Inv(r.0)
  {
    if Declines(cfg, force, |w.free|) then (w, 0)
    else
      var s := Finished(w, order, cfg.maxAtOnce);
      (s.w.(free := s.w.free + s.rejects), s.ret)
  }

  // ---------------------------------------------------------------------------------------
  // Accounting
  // ---------------------------------------------------------------------------------------

  /** What the pass takes off the list and forgets: a root, a mount point, or a context whose
      file system cannot make it again. */
  predicate Unreclaimable<C(==)>(t: Tree<C>, c: C) {
    c !in t.parent || c in t.overmounted || c !in t.supports
  }

  lemma TurnFlags<C>(s: Pass<C>, c: C, fails: bool, x: C)
    requires PassInv(s) && c in s.todo && x in s.w.flag
    ensures Passable(s)
    ensures var s' := Turn(s, c, fails);
            x in s'.w.t.live && x !in s'.w.flag ==> x == c && Unreclaimable(s.w.t, x)
  {
    if c in s.w.t.parent && s.w.t.items[c] == {} {
      ReclaimIs(s.w, c);
    }
  }

  /** Whoever is listed or waiting when the loop starts is taken away, is listed or waiting
      when it ends, or cannot be reclaimed. */
  lemma {:induction false} LoopFlags<C>(s: Pass<C>, order: seq<(C, bool)>, quota: int, x: C)
    requires PassInv(s) && Passable(s) && Enumerates(order, s.todo) && x in s.w.flag
    ensures var s' := Loop(s, order, quota);
            x in s'.w.t.live && x !in s'.w.flag ==> Unreclaimable(s.w.t, x)
    decreases |order|
  {
    if order != [] && !(quota > 0 && s.ret >= quota) {
      var s1 := Turn(s, order[0].0, order[0].1);
      TurnedIs(s, order[0].0, order[0].1);
      TurnFlags(s, order[0].0, order[0].1, x);
      if x in s1.w.flag {
        LoopFlags(s1, order[1..], quota, x);
      }
    }
  }

  /** The loop takes away only what it was given, counts what it takes and obeys the quota. */
  lemma {:induction false} LoopCounts<C>(s: Pass<C>, order: seq<(C, bool)>, quota: int)
    requires Passable(s) && Enumerates(order, s.todo)
    ensures var s' := Loop(s, order, quota);
            && s.w.t.live - s'.w.t.live <= s.todo
            && s'.ret - s.ret == |s.w.t.live| - |s'.w.t.live|
            && (quota > 0 && s.ret <= quota ==> s'.ret <= quota)
    decreases |order|
  {
    if order != [] && !(quota > 0 && s.ret >= quota) {
      var s1 := Turn(s, order[0].0, order[0].1);
      TurnedIs(s, order[0].0, order[0].1);
      LoopCounts(s1, order[1..], quota);
      var s2 := Loop(s1, order[1..], quota);
      forall x | x in s.w.t.live && x !in s2.w.t.live
        ensures x in s.todo
      {
        assert x in s1.w.t.live - s2.w.t.live || x in s.w.t.live - s1.w.t.live;
      }
    }
  }

  /** One turn, by what the loop needs to know of it. */
  lemma TurnedIs<C>(s: Pass<C>, c: C, fails: bool)
    requires Passable(s) && c in s.todo
    ensures var s' := Turn(s, c, fails);
            && Passable(s') && (PassInv(s) ==> PassInv(s'))
            && Shrunk(s.w.t, s'.w.t) && s'.todo == s.todo - {c} <= s'.w.t.live
            && s.w.t.live - s'.w.t.live <= {c}
            && s'.ret - s.ret == |s.w.t.live| - |s'.w.t.live| <= 1
            && (c !in s'.w.t.live ==> s.w.t.items[c] == {})
  {
    hide PassInv, Turn;
    TurnIs(s, c, fails);
    TurnedCounts(s, Turn(s, c, fails), c);
    if PassInv(s) {
      TurnKeeps(s, c, fails);
    }
  }

  lemma TurnedCounts<C>(s: Pass<C>, s': Pass<C>, c: C)
    requires Passable(s) && c in s.todo && Turned(s, s', c)
    ensures s.w.t.live - s'.w.t.live <= {c} && s'.ret - s.ret == |s.w.t.live| - |s'.w.t.live| <= 1
  {
    assert c in s.w.t.live;
  }

  /** What a whole call returns is how many contexts it took away, each was on the list and its
      children went before it, and the quota holds. */
  lemma CleanUpCounts<C>(w: World<C>, cfg: Settings, force: bool, order: seq<(C, bool)>)
    requires Formed(w) && Enumerates(order, w.free)
    ensures var (w', n) := CleanUp(w, cfg, force, order);
            var taken := w.t.live - w'.t.live;
            && n == |taken| && (cfg.maxAtOnce > 0 ==> n <= cfg.maxAtOnce)
            && taken <= w.free && Shrunk(w.t, w'.t)
            && (forall c :: c in taken ==> w.t.items[c] <= taken)
  {
    hide Loop, Enumerates;
    if !Declines(cfg, force, |w.free|) {
      PassStarts(w);
      var s0 := Pass(w.(free := {}), w.free, {}, 0);
      LoopCounts(s0, order, cfg.maxAtOnce);
      ChildrenGo(w.t, Loop(s0, order, cfg.maxAtOnce).w.t);
    } else {
      assert w.t.live - w.t.live == {};
    }
  }

  /** The account of a whole call: what it returns is how many contexts it took away, each was
      on the list and idle and its children went before it, and the quota holds. */
  lemma CleanUpAccounts<C>(w: World<C>, cfg: Settings, force: bool, order: seq<(C, bool)>)
    requires Inv(w) && Formed(w) && Enumerates(order, w.free)
    ensures var (w', n) := CleanUp(w, cfg, force, order);
            var taken := w.t.live - w'.t.live;
            && n == |taken| && (cfg.maxAtOnce > 0 ==> n <= cfg.maxAtOnce)
            && taken <= w.free && Shrunk(w.t, w'.t)
            && (forall c :: c in taken ==> w.refs[c] == Min(w.t, c) && w.t.items[c] <= taken)
  {
    hide CleanUp, Enumerates;
    CleanUpCounts(w, cfg, force, order);
  }

  /** Whoever was on the list is taken away, is still on it with its flag set, or is off it
      with its flag clear, and that only if it cannot be reclaimed. */
  lemma CleanUpFates<C>(w: World<C>, cfg: Settings, force: bool, order: seq<(C, bool)>, c: C)
    requires Inv(w) && Enumerates(order, w.free) && c in w.free
    ensures var w' := CleanUp(w, cfg, force, order).0;
            || c !in w'.t.live
            || (c in w'.free && c in w'.flag)
            || (c !in w'.free && c !in w'.flag && Unreclaimable(w.t, c))
  {
    if !Declines(cfg, force, |w.free|) {
      PassStarts(w);
      LoopFlags(Pass(w.(free := {}), w.free, {}, 0), order, cfg.maxAtOnce, c);
    }
  }

  lemma ChildrenGo<C>(t: Tree<C>, t': Tree<C>)
    requires Shape(t) && Shape(t') && Shrunk(t, t')
    ensures forall c :: c in t.live - t'.live ==> t.items[c] <= t.live - t'.live
    ensures |t.live - t'.live| == |t.live| - |t'.live|
  {
    forall c, k | c in t.live && k in t.items[c]
      ensures k in t.live && (k in t'.live ==> c in t'.live)
    {
      assert ChildRight(t, k);
      assert k in t'.live ==> ChildRight(t', k);
    }
    assert t.live - (t.live - t'.live) == t'.live;
  }

  // ---------------------------------------------------------------------------------------
  // Progress
  // ---------------------------------------------------------------------------------------

  ghost predicate NoneFails<C>(order: seq<(C, bool)>) {
    forall o :: o in order ==> !o.1
  }

  /** Without a quota and without failures every listed leaf goes, whatever the order. */
  lemma {:induction false} LeafGoes<C>(s: Pass<C>, order: seq<(C, bool)>, quota: int, c: C)
    requires Passable(s) && Enumerates(order, s.todo) && NoneFails(order) && quota <= 0
    requires c in s.todo && s.w.t.items[c] == {} && !Unreclaimable(s.w.t, c) && Excess(s.w, c) <= 0
    ensures c !in Loop(s, order, quota).w.t.live
    decreases |order|
  {
    hide PassInv, Turn;
    var x := order[0].0;
    TurnedIs(s, x, order[0].1);
    assert !order[0].1 by { assert order[0] in order; }
    if x == c {
      TurnTakes(s, c);
    } else {
      assert forall o :: o in order[1..] ==> o in order;
      TurnLowers(s, x, order[0].1, c);
      assert Turn(s, x, order[0].1).w.t.items[c] <= {};
      LeafGoes(Turn(s, x, order[0].1), order[1..], quota, c);
    }
  }

  /** An idle leaf on the list that can be reclaimed. */
  predicate ListedLeaf<C(==)>(w: World<C>, c: C) {
    && c in w.free && c in w.t.items && c in w.refs && w.t.items[c] == {} && !Unreclaimable(w.t, c)
    && Excess(w, c) <= 0
  }

  /** Inside a resolve or another pass, and while the list is not longer than the limit that counts, a
      call does nothing. */
  lemma RefusesToClean<C>(w: World<C>, cfg: Settings, force: bool, order: seq<(C, bool)>)
    requires Formed(w) && Enumerates(order, w.free)
    requires || cfg.resolving || cfg.busy
             || (!force && cfg.maxInList > 0 && |w.free| <= cfg.maxInList)
             || (cfg.permanent > 0 && |w.free| <= cfg.permanent)
    ensures CleanUp(w, cfg, force, order) == (w, 0)
  {
  }

  /** Outside a resolve and another pass, without a quota and without failures, a listed leaf goes exactly
      if the list is longer than the limits: the one holds unless the call is forced, the other always,
      and neither if it is not positive. */
  lemma CleansIff<C>(w: World<C>, cfg: Settings, force: bool, order: seq<(C, bool)>, c: C)
    requires Formed(w) && Enumerates(order, w.free) && NoneFails(order) && cfg.maxAtOnce <= 0
    requires !cfg.resolving && !cfg.busy && ListedLeaf(w, c)
    ensures c !in CleanUp(w, cfg, force, order).0.t.live <==>
            && (force || cfg.maxInList <= 0 || |w.free| > cfg.maxInList)
            && (cfg.permanent <= 0 || |w.free| > cfg.permanent)
  {
    if !Declines(cfg, force, |w.free|) {
      PassStarts(w);
      LeafGoes(Pass(w.(free := {}), w.free, {}, 0), order, cfg.maxAtOnce, c);
    }
  }

  lemma LeavesGoTogether<C>(w: World<C>, cfg: Settings, force: bool, order: seq<(C, bool)>)
    requires Formed(w) && Enumerates(order, w.free) && !Declines(cfg, force, |w.free|)
    ensures cfg.maxAtOnce <= 0 && NoneFails(order) ==>
              forall c {:trigger ListedLeaf(w, c)} :: ListedLeaf(w, c) ==> c !in CleanUp(w, cfg, force, order).0.t.live
  {
    hide CleanUp, Enumerates;
    if cfg.maxAtOnce <= 0 && NoneFails(order) {
      forall c | ListedLeaf(w, c)
        ensures c !in CleanUp(w, cfg, force, order).0.t.live
      {
        CleansIff(w, cfg, force, order, c);
      }
    }
  }

  /** A loop that ends below its quota did all that it would have done without one. */
  lemma {:induction false} LoopBelowQuota<C>(s: Pass<C>, order: seq<(C, bool)>, quota: int)
    requires Passable(s) && Enumerates(order, s.todo) && Loop(s, order, quota).ret < quota
    ensures Loop(s, order, quota) == Loop(s, order, 0)
    decreases |order|
  {
    hide PassInv, Turn, Passable;
    if order != [] && !(quota > 0 && s.ret >= quota) {
      TurnedIs(s, order[0].0, order[0].1);
      LoopBelowQuota(Turn(s, order[0].0, order[0].1), order[1..], quota);
    }
  }

  /** A call stops early only when it has freed as many as it may. */
  lemma QuotaIsUsed<C>(w: World<C>, cfg: Settings, force: bool, order: seq<(C, bool)>)
    requires Formed(w) && Enumerates(order, w.free) && CleanUp(w, cfg, force, order).1 < cfg.maxAtOnce
    ensures CleanUp(w, cfg, force, order) == CleanUp(w, cfg.(maxAtOnce := 0), force, order)
  {
    hide Loop, Enumerates;
    if !Declines(cfg, force, |w.free|) {
      PassStarts(w);
      LoopBelowQuota(Pass(w.(free := {}), w.free, {}, 0), order, cfg.maxAtOnce);
    }
  }

  /** A listed context that is in use, or that has children, goes back on the list with its flag set. */
  lemma InUseStays<C>(s: Pass<C>, c: C, fails: bool)
    requires Passable(s) && c in s.todo && !Unreclaimable(s.w.t, c) && (Excess(s.w, c) > 0 || s.w.t.items[c] != {})
    ensures var s' := Turn(s, c, fails);
            && s'.w == s.w.(flag := s.w.flag + {c}) && s'.rejects == s.rejects + {c} && s'.todo == s.todo - {c}
            && s'.ret == s.ret
  {
  }

  /** A childless context that cannot be reclaimed, once it is off the list, stays off it. */
  lemma {:induction false} LoopLeavesOff<C>(s: Pass<C>, order: seq<(C, bool)>, quota: int, c: C)
    requires PassInv(s) && Passable(s) && Enumerates(order, s.todo) && c in s.w.t.live && s.w.t.items[c] == {}
    requires c !in s.w.flag
    ensures var s' := Loop(s, order, quota); c in s'.w.t.live && c !in s'.w.flag
    decreases |order|
  {
    hide Turn, Sound;
    if order != [] && !(quota > 0 && s.ret >= quota) {
      var x := order[0].0;
      TurnedIs(s, x, order[0].1);
      TurnLeavesOff(s, x, order[0].1, c);
      LoopLeavesOff(Turn(s, x, order[0].1), order[1..], quota, c);
    }
  }

  lemma TurnLeavesOff<C>(s: Pass<C>, x: C, fails: bool, c: C)
    requires PassInv(s) && Passable(s) && x in s.todo && c in s.w.t.live && s.w.t.items[c] == {} && c !in s.w.flag
    ensures var s' := Turn(s, x, fails); c in s'.w.t.live && c !in s'.w.flag && c in s'.w.t.items && s'.w.t.items[c] == {}
  {
    hide Right, Pins, Reclaim;
    TurnIs(s, x, fails);
    if x in s.w.t.parent && s.w.t.items[x] == {} {
      ReclaimIs(s.w, x);
      assert ChildRight(s.w.t, x);
    }
  }

  /** Of the childless contexts on the list that cannot be reclaimed, roots of a metadata tree are freed and
      all others are dropped from the list. */
  lemma {:induction false} LoopDrops<C>(s: Pass<C>, order: seq<(C, bool)>, quota: int, c: C)
    requires PassInv(s) && Passable(s) && Enumerates(order, s.todo) && quota <= 0
    requires c in s.todo && s.w.t.items[c] == {} && Unreclaimable(s.w.t, c)
    ensures var s' := Loop(s, order, quota);
            if c !in s.w.t.parent && c in s.w.t.metadata then c !in s'.w.t.live
            else c in s'.w.t.live && c !in s'.w.flag
    decreases |order|
  {
    hide Turn, Sound;
    var x := order[0].0;
    var s1 := Turn(s, x, order[0].1);
    TurnedIs(s, x, order[0].1);
    TurnDrops(s, x, order[0].1, c);
    if x != c {
      LoopDrops(s1, order[1..], quota, c);
    } else if c in s1.w.t.live {
      LoopLeavesOff(s1, order[1..], quota, c);
    }
  }

  lemma TurnDrops<C>(s: Pass<C>, x: C, fails: bool, c: C)
    requires PassInv(s) && Passable(s) && x in s.todo && c in s.todo && s.w.t.items[c] == {} && Unreclaimable(s.w.t, c)
    ensures var s' := Turn(s, x, fails);
            if x == c then
              if c !in s.w.t.parent && c in s.w.t.metadata then c !in s'.w.t.live
              else c in s'.w.t.live && c !in s'.w.flag && c in s'.w.t.items && s'.w.t.items[c] == {}
            else
              && c in s'.w.t.live && c in s'.todo && c in s'.w.t.items && s'.w.t.items[c] == {} && Unreclaimable(s'.w.t, c)
              && (c in s'.w.t.parent <==> c in s.w.t.parent) && (c in s'.w.t.metadata <==> c in s.w.t.metadata)
  {
    TurnIs(s, x, fails);
  }

  lemma CleanUpDrops<C>(w: World<C>, cfg: Settings, force: bool, order: seq<(C, bool)>, c: C)
    requires Inv(w) && Formed(w) && Enumerates(order, w.free) && !Declines(cfg, force, |w.free|) && cfg.maxAtOnce <= 0
    requires c in w.free && w.t.items[c] == {} && Unreclaimable(w.t, c)
    ensures var w' := CleanUp(w, cfg, force, order).0;
            if c !in w.t.parent && c in w.t.metadata then c !in w'.t.live
            else c in w'.t.live && c !in w'.free && c !in w'.flag
  {
    hide Loop, Enumerates;
    PassStarts(w);
    LoopDrops(Pass(w.(free := {}), w.free, {}, 0), order, cfg.maxAtOnce, c);
  }

  /** What c has above its minimum. */
  function Excess<C>(w: World<C>, c: C): int
    requires c in w.t.items && c in w.refs
  {
    w.refs[c] - Min(w.t, c)
  }

  lemma IdleInPass<C>(s: Pass<C>, c: C)
    requires PassInv(s) && c in s.todo
    ensures c in s.w.t.items && c in s.w.refs && Excess(s.w, c) == 0
  {
  }

  lemma TurnTakes<C>(s: Pass<C>, c: C)
    requires Passable(s) && c in s.todo && s.w.t.items[c] == {} && !Unreclaimable(s.w.t, c) && Excess(s.w, c) <= 0
    ensures c !in Turn(s, c, false).w.t.live && Turn(s, c, false).ret == s.ret + 1
  {
  }

  /** A listed part of the tree, closed under children, that can all be reclaimed. */
  ghost predicate Subtree<C>(w: World<C>, part: set<C>)
    requires w.t.items.Keys == w.t.live
  {
    part <= w.free && part <= w.t.live && forall c :: c in part ==> !Unreclaimable(w.t, c) && w.t.items[c] <= part
  }

  /** All of a part lies less than n levels below the level lo. */
  ghost predicate Within<C>(t: Tree<C>, part: set<C>, lo: nat, n: nat)
    requires t.depth.Keys == t.live
  {
    forall c :: c in part && c in t.live ==> lo <= t.depth[c] < lo + n
  }

  /** No limit makes a forced call decline or stop early. */
  predicate Unlimited(cfg: Settings) {
    cfg.maxAtOnce <= 0 && cfg.permanent <= 0 && !cfg.resolving && !cfg.busy
  }

  /** The same for calls that a release makes: no limit makes a pass decline or stop early. */
  predicate Boundless(cfg: Settings) {
    Unlimited(cfg) && cfg.automatic && cfg.maxInList <= 0
  }

  lemma BoundlessNeverDeclines(cfg: Settings, n: nat)
    requires Boundless(cfg)
    ensures !Declines(cfg, false, n)
  {
  }

  /** Whoever of the part a forced call leaves is listed still and above the lowest level. */
  lemma CleanUpLeaves<C>(w: World<C>, cfg: Settings, order: seq<(C, bool)>, part: set<C>, lo: nat, n: nat, c: C)
    requires Inv(w) && Enumerates(order, w.free) && NoneFails(order) && Unlimited(cfg)
    requires Subtree(w, part) && Within(w.t, part, lo, n) && c in part
    ensures var w' := CleanUp(w, cfg, true, order).0;
            c in w'.t.live ==> c in w'.free && w.t.depth[c] < lo + n - 1
  {
    CleanUpFates(w, cfg, true, order, c);
    if w.t.depth[c] == lo + n - 1 {
      LowestIsLeaf(w.t, part, lo, n, c);
      PassStarts(w);
      IdleInPass(Pass(w.(free := {}), w.free, {}, 0), c);
      LeafGoes(Pass(w.(free := {}), w.free, {}, 0), order, cfg.maxAtOnce, c);
    }
  }

  /** A forced call takes the lowest level of the part away, and what is left of the part is
      listed and closed again. */
  lemma CleanUpLowers<C>(w: World<C>, cfg: Settings, order: seq<(C, bool)>, part: set<C>, lo: nat, n: nat)
    requires Inv(w) && Enumerates(order, w.free) && NoneFails(order) && Unlimited(cfg)
    requires Subtree(w, part) && Within(w.t, part, lo, n) && n > 0
    ensures var w' := CleanUp(w, cfg, true, order).0;
            Shape(w'.t) && Subtree(w', part * w'.t.live) && Within(w'.t, part * w'.t.live, lo, n - 1)
  {
    var w' := CleanUp(w, cfg, true, order).0;
    CleanUpAccounts(w, cfg, true, order);
    forall c | c in part * w'.t.live
      ensures c in w'.free && w'.t.items[c] <= w'.t.live && w'.t.depth[c] < lo + n - 1
    {
      CleanUpLeaves(w, cfg, order, part, lo, n, c);
      ChildrenLive(w'.t, c);
    }
  }

  lemma ChildrenLive<C>(t: Tree<C>, c: C)
    requires Shape(t) && c in t.live
    ensures t.items[c] <= t.live
  {
    forall k | k in t.items[c]
      ensures k in t.live
    {
      assert ChildRight(t, k);
    }
  }

  lemma LowestIsLeaf<C>(t: Tree<C>, part: set<C>, lo: nat, n: nat, c: C)
    requires Shape(t) && Within(t, part, lo, n) && c in part && c in t.live
    requires t.depth[c] == lo + n - 1 && t.items[c] <= part
    ensures t.items[c] == {}
  {
    forall k | k in t.items[c]
      ensures k in part && k in t.live && t.depth[k] == lo + n
    {
      assert ChildRight(t, k);
    }
  }

  /** Call after call, each with its own order. */
  ghost predicate EachEnumerates<C>(w: World<C>, cfg: Settings, orders: seq<seq<(C, bool)>>)
    requires Inv(w)
    decreases |orders|
  {
    orders == [] || (Enumerates(orders[0], w.free) && NoneFails(orders[0])
                     && EachEnumerates(CleanUp(w, cfg, true, orders[0]).0, cfg, orders[1..]))
  }

  ghost function CleanUps<C>(w: World<C>, cfg: Settings, orders: seq<seq<(C, bool)>>): (w': World<C>)
    requires Inv(w) && EachEnumerates(w, cfg, orders)
    ensures Inv(w')
    decreases |orders|
  {
    if orders == [] then w else CleanUps(CleanUp(w, cfg, true, orders[0]).0, cfg, orders[1..])
  }

  /** A listed part of the tree n levels deep is gone after n forced calls, in whatever order
      the list hands the contexts out. */
  lemma {:induction false} SubtreeEmpties<C>(w: World<C>, cfg: Settings, orders: seq<seq<(C, bool)>>,
                                             part: set<C>, lo: nat, n: nat)
    requires Inv(w) && EachEnumerates(w, cfg, orders) && Unlimited(cfg)
    requires Subtree(w, part) && Within(w.t, part, lo, n) && |orders| >= n
    ensures part !! CleanUps(w, cfg, orders).t.live
    decreases |orders|
  {
    if n == 0 {
      CleanUpsShrink(w, cfg, orders);
    } else {
      var w1 := CleanUp(w, cfg, true, orders[0]).0;
      CleanUpLowers(w, cfg, orders[0], part, lo, n);
      SubtreeEmpties(w1, cfg, orders[1..], part * w1.t.live, lo, n - 1);
      CleanUpsShrink(w1, cfg, orders[1..]);
    }
  }

  lemma {:induction false} CleanUpsShrink<C>(w: World<C>, cfg: Settings, orders: seq<seq<(C, bool)>>)
    requires Inv(w) && EachEnumerates(w, cfg, orders)
    ensures CleanUps(w, cfg, orders).t.live <= w.t.live
    decreases |orders|
  {
    if orders != [] {
      CleanUpsShrink(CleanUp(w, cfg, true, orders[0]).0, cfg, orders[1..]);
    }
  }

  // ---------------------------------------------------------------------------------------
  // What a single call may take
  // ---------------------------------------------------------------------------------------

  /** The loop takes nobody with a parent that cannot be reclaimed. */
  lemma {:induction false} LoopTakesReclaimable<C>(s: Pass<C>, order: seq<(C, bool)>, quota: int, x: C)
    requires Passable(s) && Enumerates(order, s.todo) && x in s.w.t.parent && x in s.w.t.live
    ensures x !in Loop(s, order, quota).w.t.live ==> !Unreclaimable(s.w.t, x)
    decreases |order|
  {
    hide Passable, PassInv, Turn, Turned;
    if order != [] && !(quota > 0 && s.ret >= quota) {
      var s1 := Turn(s, order[0].0, order[0].1);
      TurnedIs(s, order[0].0, order[0].1);
      TurnTakesReclaimable(s, order[0].0, order[0].1, x);
      if x in s1.w.t.live {
        LoopTakesReclaimable(s1, order[1..], quota, x);
      }
    }
  }

  lemma TurnTakesReclaimable<C>(s: Pass<C>, c: C, fails: bool, x: C)
    requires Passable(s) && c in s.todo && x in s.w.t.parent && x in s.w.t.live
    ensures x !in Turn(s, c, fails).w.t.live ==> !Unreclaimable(s.w.t, x)
  {
    TurnedIs(s, c, fails);
  }

  lemma CleanUpTakesReclaimable<C>(w: World<C>, cfg: Settings, force: bool, order: seq<(C, bool)>, x: C)
    requires Formed(w) && Enumerates(order, w.free) && x in w.t.parent && x in w.t.live
    ensures x !in CleanUp(w, cfg, force, order).0.t.live ==> !Unreclaimable(w.t, x)
  {
    hide Formed, Loop, Enumerates;
    if !Declines(cfg, force, |w.free|) {
      PassStarts(w);
      LoopTakesReclaimable(Pass(w.(free := {}), w.free, {}, 0), order, cfg.maxAtOnce, x);
    }
  }

  /** The quota is large enough to take all of the part in one call. */
  predicate Affords<C>(cfg: Settings, part: set<C>) {
    cfg.maxAtOnce <= 0 || |part| <= cfg.maxAtOnce
  }

  lemma SmallerPart<C>(part: set<C>, whole: set<C>)
    requires part <= whole
    ensures |part| <= |whole|
  {
    assert part + (whole - part) == whole;
  }

  lemma ChildrenHaveParents<C>(t: Tree<C>, c: C)
    requires Shape(t) && c in t.live
    ensures c in t.items && t.items[c] <= t.parent.Keys
  {
  }

  /** Whatever a call takes belongs to a listed, closed part of the tree that can all be reclaimed. */
  lemma TakenIsSubtree<C>(w: World<C>, cfg: Settings, force: bool, order: seq<(C, bool)>, c: C) returns (part: set<C>)
    requires Formed(w) && Enumerates(order, w.free) && c in w.t.parent && c in w.t.live
    requires c !in CleanUp(w, cfg, force, order).0.t.live
    ensures Subtree(w, part) && c in part && Affords(cfg, part)
  {
    hide Shape, CleanUp, Shrunk, Enumerates;
    CleanUpCounts(w, cfg, force, order);
    var taken := w.t.live - CleanUp(w, cfg, force, order).0.t.live;
    part := set x | x in taken && x in w.t.parent;
    SmallerPart(part, taken);
    forall x | x in part
      ensures !Unreclaimable(w.t, x) && x in w.t.items && w.t.items[x] <= part
    {
      CleanUpTakesReclaimable(w, cfg, force, order, x);
      ChildrenHaveParents(w.t, x);
    }
  }

  /** An order that starts with all of a part, always with a deepest context that is left of it. */
  ghost predicate Leads<C>(order: seq<(C, bool)>, part: set<C>, depth: map<C, nat>)
    requires part <= depth.Keys
    decreases |order|
  {
    part == {} ||
    (order != [] && order[0].0 in part && !order[0].1 && (forall x :: x in part ==> depth[x] <= depth[order[0].0])
     && Leads(order[1..], part - {order[0].0}, depth))
  }

  lemma {:induction false} DeepestOf<C>(part: set<C>, depth: map<C, nat>) returns (c: C)
    requires part <= depth.Keys && part != {}
    ensures c in part && forall x :: x in part ==> depth[x] <= depth[c]
    decreases |part|
  {
    c :| c in part;
    if part != {c} {
      assert part - {c} == {} ==> part == {c};
      var d := DeepestOf(part - {c}, depth);
      if depth[d] >= depth[c] {
        c := d;
      }
    }
  }

  /** Any list can be handed out in such an order. */
  lemma {:induction false} LeadingOrder<C>(todo: set<C>, part: set<C>, depth: map<C, nat>) returns (order: seq<(C, bool)>)
    requires part <= todo && part <= depth.Keys
    ensures Enumerates(order, todo) && Leads(order, part, depth) && NoneFails(order)
    decreases |todo|
  {
    if todo == {} {
      order := [];
    } else {
      var c;
      if part == {} {
        c :| c in todo;
      } else {
        c := DeepestOf(part, depth);
      }
      var rest := LeadingOrder(todo - {c}, part - {c}, depth);
      order := [(c, false)] + rest;
      assert order[1..] == rest;
    }
  }

  /** A closed part that can be reclaimed. */
  ghost predicate Reclaimable<C>(w: World<C>, part: set<C>)
    requires Formed(w)
  {
    part <= w.t.live &&
    forall x {:trigger x in part} :: x in part ==> !Unreclaimable(w.t, x) && w.t.items[x] <= part && Excess(w, x) <= 0
  }

  /** Releasing leaves nobody more than before. */
  lemma {:induction false} ReleaseLowers<C>(w: World<C>, c: C, x: C)
    requires Shape(w.t) && w.refs.Keys == w.t.live && c in w.t.live && x in w.t.live
    ensures Release(w, c).refs[x] <= w.refs[x] - if x == c then 1 else 0
    decreases w.t.depth[c]
  {
    if w.refs[c] - 1 == Min(w.t, c) && c in w.t.parent && c in w.held {
      assert ChildRight(w.t, c);
      ReleaseLowers(TryToAdd(w.(refs := w.refs[c := w.refs[c] - 1]), c), w.t.parent[c], x);
    }
  }

  /** Nor does a turn, over the minimum. */
  lemma TurnLowers<C>(s: Pass<C>, c: C, fails: bool, x: C)
    requires Passable(s) && c in s.todo && x in s.w.t.live
    ensures Passable(Turn(s, c, fails))
    ensures x in Turn(s, c, fails).w.t.live ==> Excess(Turn(s, c, fails).w, x) <= Excess(s.w, x)
  {
    hide Turned, PassInv, Shrunk, Reclaim;
    TurnedIs(s, c, fails);
    if s.w.t.items[c] == {} && x != c {
      if c in s.w.t.parent {
        ReclaimLowers(s.w, c, x);
      } else {
        DeletedLowers(s.w, c, x);
      }
    }
  }

  lemma DeletedLowers<C>(w: World<C>, c: C, x: C)
    requires Formed(w) && c in w.t.live && c !in w.t.parent && x in w.t.live && x != c
    ensures x in Deleted(w, c).t.items && x in Deleted(w, c).refs && Excess(Deleted(w, c), x) == Excess(w, x)
  {
  }

  lemma ReclaimLowers<C>(w: World<C>, c: C, x: C)
    requires Formed(w) && c in w.t.parent && w.t.items[c] == {} && x in w.t.live && x != c
    ensures x in Reclaim(w, c).t.items && x in Reclaim(w, c).refs && Excess(Reclaim(w, c), x) <= Excess(w, x)
  {
    assert ChildRight(w.t, c);
    CutKeepsShape(w.t, c);
    var p := w.t.parent[c];
    ReleaseLowers(World(Cut(w.t, c), w.refs - {c}, w.held, w.flag - {c}, w.free - {c}), p, x);
    assert |w.t.items[p] - {c}| == |w.t.items[p]| - 1;
  }

  /** A closed part that can be reclaimed and does not outgrow the quota goes, deepest first. */
  lemma {:induction false} PartGoes<C>(s: Pass<C>, order: seq<(C, bool)>, quota: int, part: set<C>)
    requires Passable(s) && Enumerates(order, s.todo) && part <= s.todo
    requires quota <= 0 || s.ret + |part| <= quota
    requires s.w.t.depth.Keys == s.w.t.live && part <= s.w.t.live && Leads(order, part, s.w.t.depth)
    requires Reclaimable(s.w, part)
    ensures part !! Loop(s, order, quota).w.t.live
    decreases |order|
  {
    hide Turn, Turned, PassInv, Shape, Reclaimable, Shrunk, Leads;
    if part != {} {
      var c := order[0].0;
      LeaderGoes(s, order, part);
      PartLeft(s, order, part);
      PartGoes(Turn(s, c, false), order[1..], quota, part - {c});
    }
  }

  /** The deepest context of such a part is a leaf, and so the turn takes it. */
  lemma LeaderGoes<C>(s: Pass<C>, order: seq<(C, bool)>, part: set<C>)
    requires Passable(s) && part <= s.todo && part != {} && Reclaimable(s.w, part)
    requires s.w.t.depth.Keys == s.w.t.live && part <= s.w.t.live && Leads(order, part, s.w.t.depth)
    ensures order != [] && order[0].0 in part && !order[0].1
    ensures var c := order[0].0;
            var s1 := Turn(s, c, false);
            && Passable(s1) && s1.w.t.live == s.w.t.live - {c} && s1.todo == s.todo - {c} && s1.ret == s.ret + 1
            && Shrunk(s.w.t, s1.w.t)
  {
    hide Turn, PassInv, Shape;
    var c := order[0].0;
    DeepestIsLeaf(s, part, c);
    TurnTakes(s, c);
    TurnedIs(s, c, false);
  }

  lemma PartLeft<C>(s: Pass<C>, order: seq<(C, bool)>, part: set<C>)
    requires Passable(s) && order != [] && Reclaimable(s.w, part) && order[0].0 in part && order[0].0 in s.todo
    requires s.w.t.depth.Keys == s.w.t.live && part <= s.w.t.live && Leads(order, part, s.w.t.depth)
    requires var c := order[0].0;
             var s1 := Turn(s, c, false);
             Passable(s1) && Shrunk(s.w.t, s1.w.t) && s1.w.t.live == s.w.t.live - {c}
    ensures var c := order[0].0;
            var s1 := Turn(s, c, false);
            && Reclaimable(s1.w, part - {c}) && part - {c} <= s1.w.t.live == s1.w.t.depth.Keys
            && Leads(order[1..], part - {c}, s1.w.t.depth)
  {
    hide Turn, Shape;
    var c := order[0].0;
    var s1 := Turn(s, c, false);
    LedOn(order[1..], part - {c}, s.w.t.depth, s1.w.t.depth);
    forall x | x in part - {c}
      ensures !Unreclaimable(s1.w.t, x) && s1.w.t.items[x] <= part - {c} && Excess(s1.w, x) <= 0
    {
      TurnLowers(s, c, false, x);
      ChildrenLive(s1.w.t, x);
    }
  }

  lemma {:induction false} LedOn<C>(order: seq<(C, bool)>, part: set<C>, depth: map<C, nat>, depth': map<C, nat>)
    requires part <= depth.Keys && part <= depth'.Keys && (forall x :: x in part ==> depth'[x] == depth[x])
    requires Leads(order, part, depth)
    ensures Leads(order, part, depth')
    decreases |order|
  {
    if part != {} {
      LedOn(order[1..], part - {order[0].0}, depth, depth');
    }
  }

  lemma DeepestIsLeaf<C>(s: Pass<C>, part: set<C>, c: C)
    requires Passable(s) && part <= s.w.t.live && c in part && s.w.t.items[c] <= part
    requires forall x :: x in part ==> s.w.t.depth[x] <= s.w.t.depth[c]
    ensures s.w.t.items[c] == {}
  {
    ChildrenDeeper(s.w.t, c);
  }

  lemma ChildrenDeeper<C>(t: Tree<C>, c: C)
    requires Shape(t) && c in t.live
    ensures forall k :: k in t.items[c] ==> k in t.live && t.depth[k] == t.depth[c] + 1
  {
    forall k | k in t.items[c]
      ensures k in t.live && t.depth[k] == t.depth[c] + 1
    {
      assert ChildRight(t, k);
    }
  }

  /** Such an order, for the whole call. */
  lemma PartMayGo<C>(w: World<C>, cfg: Settings, force: bool, part: set<C>) returns (order: seq<(C, bool)>)
    requires Formed(w) && !Declines(cfg, force, |w.free|) && Affords(cfg, part)
    requires Reclaimable(w, part) && part <= w.free
    ensures Enumerates(order, w.free) && Leads(order, part, w.t.depth) && NoneFails(order)
    ensures part !! CleanUp(w, cfg, force, order).0.t.live
  {
    hide Loop, Enumerates, Leads;
    PassStarts(w);
    order := LeadingOrder(w.free, part, w.t.depth);
    PartGoes(Pass(w.(free := {}), w.free, {}, 0), order, cfg.maxAtOnce, part);
  }

  /** An order that comes to all of keep first, when nobody there is a leaf, and takes part after that. */
  lemma {:induction false} KeepingOrder<C>(s: Pass<C>, quota: int, keep: set<C>, part: set<C>)
      returns (order: seq<(C, bool)>)
    requires Passable(s) && quota <= 0 && keep <= s.todo && part <= s.todo && keep !! part && Reclaimable(s.w, part)
    requires forall x :: x in keep ==> x in s.w.t.items && s.w.t.items[x] != {}
    ensures Enumerates(order, s.todo) && NoneFails(order)
    ensures keep <= Loop(s, order, quota).w.t.live && part !! Loop(s, order, quota).w.t.live
    decreases |keep|
  {
    hide Turn, Reclaimable, Shape, PassInv, Shrunk;
    if x :| x in keep {
      var s1 := Turn(s, x, false);
      TurnRefuses(s, x, part);
      var rest := KeepingOrder(s1, quota, keep - {x}, part);
      LoopCounts(s1, rest, quota);
      order := [(x, false)] + rest;
      assert order[1..] == rest;
    } else {
      TreeKeys(s.w);
      order := LeadingOrder(s.todo, part, s.w.t.depth);
      PartGoes(s, order, quota, part);
    }
  }

  lemma TurnRefuses<C>(s: Pass<C>, x: C, part: set<C>)
    requires Passable(s) && x in s.todo && s.w.t.items[x] != {} && Reclaimable(s.w, part)
    ensures var s1 := Turn(s, x, false);
            Passable(s1) && s1.w.t == s.w.t && s1.todo == s.todo - {x} && Reclaimable(s1.w, part)
  {
    forall y | y in part
      ensures Excess(Turn(s, x, false).w, y) <= 0
    {
      assert Excess(s.w, y) <= 0;
    }
  }

  lemma MayKeep<C>(w: World<C>, cfg: Settings, keep: set<C>, part: set<C>) returns (order: seq<(C, bool)>)
    requires Formed(w) && Boundless(cfg) && keep <= w.free && part <= w.free && keep !! part && Reclaimable(w, part)
    requires forall x :: x in keep ==> x in w.t.items && w.t.items[x] != {}
    ensures Enumerates(order, w.free) && NoneFails(order)
    ensures keep <= CleanUp(w, cfg, false, order).0.t.live && part !! CleanUp(w, cfg, false, order).0.t.live
  {
    hide Loop, Enumerates;
    BoundlessNeverDeclines(cfg, |w.free|);
    PassStarts(w);
    order := KeepingOrder(Pass(w.(free := {}), w.free, {}, 0), cfg.maxAtOnce, keep, part);
  }

  /** A call that does not decline may take a context that has a parent if and only if the context
      belongs to a listed, closed part of the tree that can all be reclaimed and is within the
      quota: its whole subtree, that is. Then it does so in any order that starts with the part
      and comes to children first. */
  lemma MayBeTakenIff<C>(w: World<C>, cfg: Settings, force: bool, c: C)
    requires Inv(w) && Formed(w) && c in w.t.parent && c in w.t.live && !Declines(cfg, force, |w.free|)
    ensures (exists order :: Enumerates(order, w.free) && c !in CleanUp(w, cfg, force, order).0.t.live) <==>
            exists part :: c in part && Subtree(w, part) && Affords(cfg, part)
  {
    hide Shape, Counted, CleanUp, Enumerates;
    TreeKeys(w);
    if part :| c in part && Subtree(w, part) && Affords(cfg, part) {
      assert Reclaimable(w, part);
      var order := PartMayGo(w, cfg, force, part);
      assert c !in CleanUp(w, cfg, force, order).0.t.live;
    }
    if order :| Enumerates(order, w.free) && c !in CleanUp(w, cfg, force, order).0.t.live {
      var part := TakenIsSubtree(w, cfg, force, order, c);
    }
  }

  lemma TreeKeys<C>(w: World<C>)
    requires Formed(w)
    ensures w.t.items.Keys == w.t.depth.Keys == w.t.live == w.refs.Keys
  {
  }
}
