/** The context tree and its free list: what acquire, release and discovery do to them. */
module FreeList {

  /** The live contexts, their parents and children and, by depth, how many ancestors each
      has. counting are those whose number of children is not zero: the number goes up with every
      child that is found and stays when the child is reclaimed. The last three say what kind a
      context is. */
  datatype Tree<C> = Tree(
    live: set<C>,
    parent: map<C, C>,
    items: map<C, set<C>>,
    depth: map<C, nat>,
    counting: set<C>,
    supports: set<C>,
    overmounted: set<C>,
    metadata: set<C>)

  /** Whether its file system can make a context again, whether it is mounted over, and
      whether it is the kind of root that is freed on its own. */
  datatype Kind = Kind(supports: bool, overmounted: bool, metadata: bool)

  /** The tree, every reference count, who holds an extra reference on its parent, the flag
      each context keeps about the free list, and the list itself. */
  datatype World<C> = World(t: Tree<C>, refs: map<C, int>, held: set<C>, flag: set<C>, free: set<C>)

  /** One handle from the parent or owner and one from each child. */
  function Min<C>(t: Tree<C>, c: C): int
    requires c in t.items
  {
    1 + |t.items[c]|
  }

  ghost predicate ChildRight<C>(t: Tree<C>, c: C)
    requires t.items.Keys == t.live && t.depth.Keys == t.live
  {
    && c in t.parent && c in t.live && t.parent[c] in t.live && c in t.items[t.parent[c]]
    && t.depth[c] == t.depth[t.parent[c]] + 1
  }

  /** Parent and child links agree, and every parent is live: the tree is closed under parent. */
  ghost predicate Shape<C>(t: Tree<C>) {
    && t.items.Keys == t.live && t.depth.Keys == t.live && t.parent.Keys <= t.live
    && (forall c {:trigger ChildRight(t, c)} :: c in t.parent ==> ChildRight(t, c))
    && (forall p, c {:trigger c in t.items[p]} :: p in t.live && c in t.items[p] ==> c in t.parent && t.parent[c] == p)
  }

  /** The children of c that hold an extra reference on it. */
  function Pinning<C(==)>(t: Tree<C>, held: set<C>, c: C): set<C>
    requires c in t.items
  {
    set k | k in t.items[c] && k in held
  }

  function Pins<C>(t: Tree<C>, held: set<C>, c: C): nat
    requires c in t.items
  {
    |Pinning(t, held, c)|
  }

  /** c pins its parent exactly when it has more than its minimum, and it has at least one
      reference for its owner, one for each child and one for each child that pins it. */
  ghost predicate Right<C>(t: Tree<C>, refs: map<C, int>, held: set<C>, c: C)
    requires c in t.items && c in refs
  {
    && (c in held <==> c in t.parent && refs[c] > Min(t, c))
    && refs[c] >= Min(t, c) + Pins(t, held, c)
  }

  ghost predicate Counted<C>(t: Tree<C>, refs: map<C, int>, held: set<C>)
    requires t.items.Keys == t.live
  {
    && refs.Keys == t.live && held <= t.live
    && (forall c {:trigger Right(t, refs, held, c)} :: c in t.live ==> Right(t, refs, held, c))
  }

  /** Nobody listed is in use. */
  ghost predicate Idle<C>(t: Tree<C>, refs: map<C, int>, listed: set<C>)
    requires t.items.Keys == t.live && refs.Keys == t.live
  {
    listed <= t.live && forall c :: c in listed ==> refs[c] == Min(t, c)
  }

  /** The counts are right and whoever has the flag set is idle. */
  ghost predicate Sound<C>(w: World<C>) {
    Shape(w.t) && Counted(w.t, w.refs, w.held) && Idle(w.t, w.refs, w.flag)
  }

  /** Between two clean-up passes the flags also say exactly who is on the list. */
  ghost predicate Inv<C>(w: World<C>) {
    Sound(w) && w.free == w.flag
  }

  // ---------------------------------------------------------------------------------------
  // Acquire
  // ---------------------------------------------------------------------------------------

  function Unlist<C(==)>(w: World<C>, c: C): World<C> {
    if c in w.flag then w.(flag := w.flag - {c}, free := w.free - {c}) else w
  }

  function Pinned<C(==)>(w: World<C>, c: C, n: int): World<C> {
    w.(held := w.held + {c}, refs := w.refs[c := n])
  }

  /** AddRef: leaving the minimum takes the context off the list and pins its parent. */
  function Acquire<C(==)>(w: World<C>, c: C): (w': World<C>)
    requires Shape(w.t) && w.refs.Keys == w.t.live && c in w.t.live
    ensures w'.t == w.t && w'.refs.Keys == w.t.live
    decreases w.t.depth[c]
  {
    if w.refs[c] == Min(w.t, c) then
      var w1 := Unlist(w, c);
      if c in w.t.parent && c !in w.held then
        assert ChildRight(w.t, c);
        Pinned(Acquire(w1, w.t.parent[c]), c, w.refs[c] + 1)
      else w1.(refs := w.refs[c := w.refs[c] + 1])
    else w.(refs := w.refs[c := w.refs[c] + 1])
  }

  ghost predicate Same<C>(w: World<C>, w': World<C>, x: C)
    requires x in w.refs && x in w'.refs
  {
    && w'.refs[x] == w.refs[x] && (x in w'.held <==> x in w.held)
    && (x in w'.flag <==> x in w.flag) && (x in w'.free <==> x in w.free)
  }

  /** From w to w' only c and contexts nearer the root changed. */
  ghost predicate OnlyAbove<C>(w: World<C>, w': World<C>, c: C)
    requires c in w.t.live && w.t.depth.Keys == w.t.live
  {
    && w'.t == w.t && w.refs.Keys == w.t.live && w'.refs.Keys == w.t.live
    && forall x {:trigger Same(w, w', x)} :: x in w.t.live && x != c && w.t.depth[x] >= w.t.depth[c] ==> Same(w, w', x)
  }

  lemma UnlistKeeps<C>(w: World<C>, c: C)
    requires Sound(w) && c in w.t.live
    ensures Sound(Unlist(w, c)) && OnlyAbove(w, Unlist(w, c), c)
    ensures c !in Unlist(w, c).flag
  {
  }

  /** A reference more on a context that needs no new pin. */
  lemma CountRaised<C>(t: Tree<C>, refs: map<C, int>, held: set<C>, c: C)
    requires Shape(t) && Counted(t, refs, held) && c in t.live
    requires refs[c] > Min(t, c) || c !in t.parent
    ensures Counted(t, refs[c := refs[c] + 1], held)
  {
    assert Right(t, refs, held, c);
    forall x | x in t.live
      ensures Right(t, refs[c := refs[c] + 1], held, x)
    {
      assert Right(t, refs, held, x);
    }
  }

  /** Pinning c is one pin more on its parent and none on anybody else. */
  lemma PinsWith<C>(t: Tree<C>, held: set<C>, c: C, x: C)
    requires Shape(t) && c in t.parent && c !in held && x in t.live
    ensures t.parent[c] in t.live
    ensures Pins(t, held + {c}, x) == Pins(t, held, x) + if x == t.parent[c] then 1 else 0
  {
    assert ChildRight(t, c);
    if x == t.parent[c] {
      assert Pinning(t, held + {c}, x) == Pinning(t, held, x) + {c};
    } else {
      assert Pinning(t, held + {c}, x) == Pinning(t, held, x);
    }
  }

  /** What happened above p left p's children as they were. */
  lemma PinsAbove<C>(w: World<C>, w': World<C>, p: C)
    requires Shape(w.t) && p in w.t.live && OnlyAbove(w, w', p)
    ensures Pins(w.t, w'.held, p) == Pins(w.t, w.held, p)
  {
    forall k | k in w.t.items[p]
      ensures k in w'.held <==> k in w.held
    {
      assert ChildRight(w.t, k);
      assert Same(w, w', k);
    }
    assert Pinning(w.t, w'.held, p) == Pinning(w.t, w.held, p);
  }

  lemma RightPinned<C>(t: Tree<C>, refs: map<C, int>, held: set<C>, c: C, x: C)
    requires Shape(t) && refs.Keys == t.live && x in t.live && c in t.parent && c in t.live && t.parent[c] in t.live
    requires Right(t, refs, held, x) && Right(t, refs, held, c) && c !in held && refs[c] == Min(t, c)
    requires refs[t.parent[c]] > Min(t, t.parent[c]) + Pins(t, held, t.parent[c])
    ensures Right(t, refs[c := refs[c] + 1], held + {c}, x)
  {
    PinsWith(t, held, c, x);
  }

  /** c may take a reference and pin its parent once the parent has a reference to spare. */
  lemma PinAdded<C>(t: Tree<C>, refs: map<C, int>, held: set<C>, c: C)
    requires Shape(t) && Counted(t, refs, held) && c in t.parent && c in t.live && c !in held
    requires refs[c] == Min(t, c)
    requires t.parent[c] in t.live && refs[t.parent[c]] > Min(t, t.parent[c]) + Pins(t, held, t.parent[c])
    ensures Counted(t, refs[c := refs[c] + 1], held + {c})
  {
    assert Right(t, refs, held, c);
    forall x | x in t.live
      ensures Right(t, refs[c := refs[c] + 1], held + {c}, x)
    {
      assert Right(t, refs, held, x);
      RightPinned(t, refs, held, c, x);
    }
  }

  lemma AboveStep<C>(w: World<C>, w1: World<C>, w2: World<C>, c: C, n: int)
    requires Shape(w.t) && c in w.t.parent && c in w.t.live && w.t.parent[c] in w.t.live
    requires OnlyAbove(w, w1, c) && OnlyAbove(w1, w2, w.t.parent[c])
    ensures OnlyAbove(w, Pinned(w2, c, n), c)
  {
    assert ChildRight(w.t, c);
    forall x | x in w.t.live && x != c && w.t.depth[x] >= w.t.depth[c]
      ensures Same(w, Pinned(w2, c, n), x)
    {
      assert Same(w, w1, x) && Same(w1, w2, x);
    }
  }

  /** Acquiring keeps the whole tree right, and touches nothing but c and its ancestors. */
  lemma {:induction false} AcquireKeeps<C>(w: World<C>, c: C)
    requires Sound(w) && c in w.t.live
    ensures Sound(Acquire(w, c)) && OnlyAbove(w, Acquire(w, c), c)
    ensures Acquire(w, c).refs[c] == w.refs[c] + 1 && c !in Acquire(w, c).flag
    ensures w.free == w.flag ==> Acquire(w, c).free == Acquire(w, c).flag
    decreases w.t.depth[c]
  {
    assert Right(w.t, w.refs, w.held, c);
    UnlistKeeps(w, c);
    if w.refs[c] == Min(w.t, c) && c in w.t.parent {
      assert ChildRight(w.t, c);
      AcquireKeeps(Unlist(w, c), w.t.parent[c]);
      AcquirePin(w, c);
    } else {
      CountRaised(w.t, w.refs, w.held, c);
    }
  }

  lemma AcquirePin<C>(w: World<C>, c: C)
    requires Sound(w) && c in w.t.parent && c in w.t.live && w.refs[c] == Min(w.t, c)
    requires var w1, p := Unlist(w, c), w.t.parent[c];
             p in w.t.live && Sound(w1) && OnlyAbove(w, w1, c) && c !in w1.flag
             && Sound(Acquire(w1, p)) && OnlyAbove(w1, Acquire(w1, p), p) && Acquire(w1, p).refs[p] == w1.refs[p] + 1
             && (w1.free == w1.flag ==> Acquire(w1, p).free == Acquire(w1, p).flag)
    ensures Sound(Acquire(w, c)) && OnlyAbove(w, Acquire(w, c), c)
    ensures Acquire(w, c).refs[c] == w.refs[c] + 1 && c !in Acquire(w, c).flag
    ensures w.free == w.flag ==> Acquire(w, c).free == Acquire(w, c).flag
  {
    var w1, p := Unlist(w, c), w.t.parent[c];
    var w2 := Acquire(w1, p);
    assert Right(w.t, w.refs, w.held, c) && Right(w.t, w1.refs, w1.held, p);
    assert ChildRight(w.t, c);
    assert Same(w1, w2, c);
    PinsAbove(w1, w2, p);
    PinAdded(w.t, w2.refs, w2.held, c);
    AboveStep(w, w1, w2, c, w.refs[c] + 1);
  }

  // ---------------------------------------------------------------------------------------
  // Release
  // ---------------------------------------------------------------------------------------

  /** An idle context goes on the list, unless it is there or is a root of the wrong kind. */
  function TryToAdd<C(==)>(w: World<C>, c: C): World<C>
    requires c in w.t.items && c in w.refs
  {
    if c in w.flag || w.refs[c] > Min(w.t, c) then w
    else if c !in w.t.parent && !(c in w.t.metadata && w.t.items[c] == {}) then w
    else w.(flag := w.flag + {c}, free := w.free + {c})
  }

  /** Release: reaching the minimum offers the context to the list and lets its parent go. */
  function Release<C(==)>(w: World<C>, c: C): (w': World<C>)
    requires Shape(w.t) && w.refs.Keys == w.t.live && c in w.t.live
    ensures w'.t == w.t && w'.refs.Keys == w.t.live && w'.free <= w.free + w.t.live
    decreases w.t.depth[c]
  {
    var w1 := w.(refs := w.refs[c := w.refs[c] - 1]);
    if w1.refs[c] == Min(w.t, c) then
      var w2 := TryToAdd(w1, c);
      if c in w.t.parent && c in w.held then
        assert ChildRight(w.t, c);
        var w3 := Release(w2, w.t.parent[c]);
        w3.(held := w3.held - {c})
      else w2
    else w1
  }

  /** Whether c still holds its parent does not matter to the release of anybody above c. */
  lemma {:induction false} ReleaseLater<C>(w: World<C>, c: C, p: C)
    requires Shape(w.t) && w.refs.Keys == w.t.live && c in w.t.live && p in w.t.live && w.t.depth[p] < w.t.depth[c]
    ensures Release(w.(held := w.held - {c}), p) == Release(w, p).(held := Release(w, p).held - {c})
    decreases w.t.depth[p]
  {
    var w2 := TryToAdd(w.(refs := w.refs[p := w.refs[p] - 1]), p);
    if p in w.t.parent && p in w.held && w.refs[p] - 1 == Min(w.t, p) {
      assert ChildRight(w.t, p);
      ReleaseLater(w2, c, w.t.parent[p]);
      var w3 := Release(w2, w.t.parent[p]);
      assert w3.held - {c} - {p} == w3.held - {p} - {c};
    }
  }

  /** Nor do pins of contexts that all lie deeper. */
  lemma {:induction false} ReleaseAside<C>(w: World<C>, aside: set<C>, p: C)
    requires Shape(w.t) && w.refs.Keys == w.t.live && p in w.t.live
    requires forall x :: x in aside && x in w.t.live ==> w.t.depth[x] > w.t.depth[p]
    ensures Release(w.(held := w.held + aside), p) == Release(w, p).(held := Release(w, p).held + aside)
    decreases w.t.depth[p]
  {
    var w2 := TryToAdd(w.(refs := w.refs[p := w.refs[p] - 1]), p);
    if p in w.t.parent && p in w.held && w.refs[p] - 1 == Min(w.t, p) {
      assert ChildRight(w.t, p);
      ReleaseAside(w2, aside, w.t.parent[p]);
      var w3 := Release(w2, w.t.parent[p]);
      assert w3.held + aside - {p} == w3.held - {p} + aside;
    }
  }

  /** Giving up a reference that leaves c above its minimum. */
  lemma CountLowered<C>(t: Tree<C>, refs: map<C, int>, held: set<C>, c: C)
    requires Shape(t) && Counted(t, refs, held) && c in t.live
    requires refs[c] > Min(t, c) + Pins(t, held, c)
    requires refs[c] - 1 > Min(t, c) || c !in t.parent
    ensures Counted(t, refs[c := refs[c] - 1], held)
  {
    assert Right(t, refs, held, c);
    forall x | x in t.live
      ensures Right(t, refs[c := refs[c] - 1], held, x)
    {
      assert Right(t, refs, held, x);
    }
  }

  lemma RightUnpinned<C>(t: Tree<C>, refs: map<C, int>, held: set<C>, c: C, x: C)
    requires Shape(t) && refs.Keys == t.live && x in t.live && c in t.parent && c in t.live && c in held
    requires Right(t, refs, held, x) && refs[c] - 1 == Min(t, c) && Pins(t, held, c) == 0
    ensures Right(t, refs[c := refs[c] - 1], held - {c}, x)
  {
    assert held - {c} + {c} == held;
    PinsWith(t, held - {c}, c, x);
  }

  lemma ParentSpare<C>(t: Tree<C>, refs: map<C, int>, held: set<C>, c: C)
    requires Shape(t) && refs.Keys == t.live && c in t.parent && c in held && t.parent[c] in t.live
    requires Right(t, refs, held, t.parent[c])
    ensures refs[t.parent[c]] > Min(t, t.parent[c]) + Pins(t, held - {c}, t.parent[c])
  {
    assert held - {c} + {c} == held;
    PinsWith(t, held - {c}, c, t.parent[c]);
  }

  /** Giving up the last reference and the pin with it leaves the parent one to spare. */
  lemma PinRemoved<C>(t: Tree<C>, refs: map<C, int>, held: set<C>, c: C)
    requires Shape(t) && Counted(t, refs, held) && c in t.parent && c in t.live && c in held
    requires refs[c] - 1 == Min(t, c) && Pins(t, held, c) == 0
    ensures Counted(t, refs[c := refs[c] - 1], held - {c}) && t.parent[c] in t.live
    ensures refs[t.parent[c]] > Min(t, t.parent[c]) + Pins(t, held - {c}, t.parent[c])
  {
    assert ChildRight(t, c);
    assert Right(t, refs, held, t.parent[c]);
    ParentSpare(t, refs, held, c);
    forall x | x in t.live
      ensures Right(t, refs[c := refs[c] - 1], held - {c}, x)
    {
      assert Right(t, refs, held, x);
      RightUnpinned(t, refs, held, c, x);
    }
  }

  /** Giving up a reference that is neither the owner's, a child's nor a pin keeps the tree
      right, and touches nothing but c and its ancestors. */
  lemma {:induction false} ReleaseKeeps<C>(w: World<C>, c: C)
    requires Sound(w) && c in w.t.live && w.refs[c] > Min(w.t, c) + Pins(w.t, w.held, c)
    ensures Sound(Release(w, c)) && OnlyAbove(w, Release(w, c), c)
    ensures Release(w, c).refs[c] == w.refs[c] - 1
    ensures w.free == w.flag ==> Release(w, c).free == Release(w, c).flag
    decreases w.t.depth[c]
  {
    assert Right(w.t, w.refs, w.held, c);
    var refs' := w.refs[c := w.refs[c] - 1];
    if refs'[c] == Min(w.t, c) && c in w.t.parent {
      PinRemoved(w.t, w.refs, w.held, c);
      assert ChildRight(w.t, c);
      ReleaseIdle(w, c);
      ReleaseKeeps(TryToAdd(w.(refs := refs', held := w.held - {c}), c), w.t.parent[c]);
      ReleaseStep(w, c);
    } else {
      CountLowered(w.t, w.refs, w.held, c);
    }
  }

  /** The state in which the parent is let go, once c's own pin is written off. */
  lemma ReleaseIdle<C>(w: World<C>, c: C)
    requires Sound(w) && c in w.t.parent && c in w.t.live && w.refs[c] - 1 == Min(w.t, c)
    requires Counted(w.t, w.refs[c := w.refs[c] - 1], w.held - {c})
    ensures var w2 := TryToAdd(w.(refs := w.refs[c := w.refs[c] - 1], held := w.held - {c}), c);
            Sound(w2) && OnlyAbove(w, w2, c) && (w.free == w.flag ==> w2.free == w2.flag)
  {
  }

  lemma ReleaseStep<C>(w: World<C>, c: C)
    requires Sound(w) && c in w.t.parent && c in w.t.live && w.refs[c] - 1 == Min(w.t, c) && c in w.held
    requires w.t.parent[c] in w.t.live
    requires var w2 := TryToAdd(w.(refs := w.refs[c := w.refs[c] - 1], held := w.held - {c}), c);
             OnlyAbove(w, w2, c) && OnlyAbove(w2, Release(w2, w.t.parent[c]), w.t.parent[c])
    ensures var w2 := TryToAdd(w.(refs := w.refs[c := w.refs[c] - 1], held := w.held - {c}), c);
            Release(w, c) == Release(w2, w.t.parent[c]) && OnlyAbove(w, Release(w, c), c)
            && Release(w, c).refs[c] == w.refs[c] - 1
  {
    var w1 := TryToAdd(w.(refs := w.refs[c := w.refs[c] - 1]), c);
    var w2 := TryToAdd(w.(refs := w.refs[c := w.refs[c] - 1], held := w.held - {c}), c);
    var w3 := Release(w2, w.t.parent[c]);
    assert ChildRight(w.t, c);
    assert w2 == w1.(held := w1.held - {c});
    ReleaseLater(w1, c, w.t.parent[c]);
    assert Same(w2, w3, c);
    forall x | x in w.t.live && x != c && w.t.depth[x] >= w.t.depth[c]
      ensures Same(w, w3, x)
    {
      assert Same(w, w2, x) && Same(w2, w3, x);
    }
  }

  // ---------------------------------------------------------------------------------------
  // Discovery and reclaim
  // ---------------------------------------------------------------------------------------

  /** The tree with a new leaf k below p. */
  function Grown<C(==)>(t: Tree<C>, p: C, k: C, kind: Kind): Tree<C>
    requires p in t.items && p in t.depth
  {
    Tree(t.live + {k}, t.parent[k := p], t.items[p := t.items[p] + {k}][k := {}], t.depth[k := t.depth[p] + 1],
         t.counting + {p},
         With(t.supports, k, kind.supports), With(t.overmounted, k, kind.overmounted),
         With(t.metadata, k, kind.metadata))
  }

  function With<C(==)>(s: set<C>, k: C, yes: bool): set<C> {
    if yes then s + {k} else s
  }

  /** A new child starts with its owner's handle alone and on the list; its handle on its parent
      is one reference more there, taken before the parent has an entry for the child. */
  function Discover<C(==)>(w: World<C>, p: C, k: C, kind: Kind): World<C>
    requires Shape(w.t) && w.refs.Keys == w.t.live && p in w.t.live
  {
    var w1 := Acquire(w, p);
    World(Grown(w.t, p, k, kind), w1.refs[k := 1], w1.held, w1.flag + {k}, w1.free + {k})
  }

  /** The tree without the leaf c. */
  function Cut<C(==)>(t: Tree<C>, c: C): Tree<C>
    requires c in t.parent ==> t.parent[c] in t.items
  {
    var items := if c in t.parent then t.items[t.parent[c] := t.items[t.parent[c]] - {c}] else t.items;
    Tree(t.live - {c}, t.parent - {c}, items - {c}, t.depth - {c}, t.counting - {c},
         t.supports - {c}, t.overmounted - {c}, t.metadata - {c})
  }

  lemma GrownKeepsShape<C>(t: Tree<C>, p: C, k: C, kind: Kind)
    requires Shape(t) && p in t.live && k !in t.live
    ensures Shape(Grown(t, p, k, kind))
  {
    var t' := Grown(t, p, k, kind);
    forall c | c in t'.parent
      ensures ChildRight(t', c)
    {
      if c != k {
        assert ChildRight(t, c);
      }
    }
    forall q, c | q in t'.live && c in t'.items[q]
      ensures c in t'.parent && t'.parent[c] == q
    {
      if c != k {
        assert c in t.items[q];
        assert ChildRight(t, c);
      }
    }
  }

  lemma CutKeepsShape<C>(t: Tree<C>, c: C)
    requires Shape(t) && c in t.live && t.items[c] == {} && (c in t.parent ==> t.parent[c] in t.live)
    ensures Shape(Cut(t, c))
  {
    var t' := Cut(t, c);
    if c in t.parent {
      assert ChildRight(t, c);
    }
    forall x | x in t'.parent
      ensures ChildRight(t', x)
    {
      assert ChildRight(t, x);
      assert t.parent[x] != c;
    }
    forall q, x | q in t'.live && x in t'.items[q]
      ensures x in t'.parent && t'.parent[x] == q
    {
      assert x in t.items[q];
    }
  }

  lemma RightGrown<C>(t: Tree<C>, refs: map<C, int>, held: set<C>, p: C, k: C, kind: Kind, x: C)
    requires Shape(t) && Counted(t, refs, held) && p in t.live && k !in t.live && (x in t.live || x == k)
    ensures Right(Grown(t, p, k, kind), refs[p := refs[p] + 1][k := 1], held, x)
  {
    if x != k {
      assert Right(t, refs, held, x);
    }
    if x == p {
      assert k !in t.items[p];
      assert Pinning(Grown(t, p, k, kind), held, p) == Pinning(t, held, p);
    }
  }

  lemma GrownKeepsCounts<C>(t: Tree<C>, refs: map<C, int>, held: set<C>, p: C, k: C, kind: Kind)
    requires Shape(t) && Counted(t, refs, held) && p in t.live && k !in t.live
    ensures Counted(Grown(t, p, k, kind), refs[p := refs[p] + 1][k := 1], held)
  {
    hide Pins, Min;
    forall x | x in t.live + {k}
      ensures Right(Grown(t, p, k, kind), refs[p := refs[p] + 1][k := 1], held, x)
    {
      RightGrown(t, refs, held, p, k, kind, x);
    }
  }

  lemma GrownKeepsIdle<C>(t: Tree<C>, refs: map<C, int>, flag: set<C>, p: C, k: C, kind: Kind)
    requires Shape(t) && refs.Keys == t.live && Idle(t, refs, flag)
    requires p in t.live && k !in t.live
    ensures Idle(Grown(t, p, k, kind), refs[p := refs[p] + 1][k := 1], flag + {k})
  {
    assert k !in t.items[p];
  }

  /** A child keeps the tree right under a parent that is in use or has no parent itself. Under an
      idle parent that has one it does not: the parent is pinned above and off the list, although
      it is as idle as before. */
  lemma DiscoverKeepsIff<C>(w: World<C>, p: C, k: C, kind: Kind)
    requires Sound(w) && p in w.t.live && k !in w.t.live
    ensures Sound(Discover(w, p, k, kind)) <==> w.refs[p] > Min(w.t, p) || p !in w.t.parent
    ensures w.free == w.flag ==> Discover(w, p, k, kind).free == Discover(w, p, k, kind).flag
  {
    if w.refs[p] > Min(w.t, p) || p !in w.t.parent {
      DiscoverKeeps(w, p, k, kind);
    } else {
      DiscoverUnderIdle(w, p, k, kind);
    }
    AcquireKeeps(w, p);
  }

  lemma DiscoverKeeps<C>(w: World<C>, p: C, k: C, kind: Kind)
    requires Sound(w) && p in w.t.live && k !in w.t.live && (w.refs[p] > Min(w.t, p) || p !in w.t.parent)
    ensures Sound(Discover(w, p, k, kind))
  {
    hide Pins, Min, Right, Acquire, Grown, ChildRight;
    var w1 := if w.refs[p] == Min(w.t, p) then Unlist(w, p) else w;
    AcquireIs(w, p);
    UnlistKeeps(w, p);
    GrownKeepsShape(w.t, p, k, kind);
    GrownKeepsIdle(w.t, w.refs, w1.flag, p, k, kind);
    GrownKeepsCounts(w.t, w.refs, w.held, p, k, kind);
  }

  /** Acquiring where no pin is due. */
  lemma AcquireIs<C>(w: World<C>, p: C)
    requires Sound(w) && p in w.t.live && (w.refs[p] > Min(w.t, p) || p !in w.t.parent)
    ensures Acquire(w, p) == (if w.refs[p] == Min(w.t, p) then Unlist(w, p) else w).(refs := w.refs[p := w.refs[p] + 1])
  {
  }

  lemma DiscoverUnderIdle<C>(w: World<C>, p: C, k: C, kind: Kind)
    requires Sound(w) && p in w.t.parent && p in w.t.live && k !in w.t.live && w.refs[p] <= Min(w.t, p)
    ensures var w' := Discover(w, p, k, kind);
            p in w'.held && p !in w'.flag && w'.refs[p] == Min(w'.t, p) && !Sound(w')
  {
    assert Right(w.t, w.refs, w.held, p);
    assert ChildRight(w.t, p);
    AcquireKeeps(w, p);
    var w' := Discover(w, p, k, kind);
    assert k !in w.t.items[p];
    assert |w.t.items[p] + {k}| == |w.t.items[p]| + 1;
    assert w'.refs[p] == Min(w'.t, p);
    assert p in w'.held;
    assert Sound(w') ==> Right(w'.t, w'.refs, w'.held, p);
  }

  /** The parent drops the child's entry and the child, going, drops its handle on the parent. */
  function Reclaim<C(==)>(w: World<C>, c: C): (w': World<C>)
    requires Shape(w.t) && w.refs.Keys == w.t.live && c in w.t.parent && w.t.items[c] == {}
    ensures w.t.parent[c] in w.t.items && w'.t == Cut(w.t, c)
    ensures w'.refs.Keys == w'.t.live && w'.free <= w.free + w.t.live - {c}
  {
    assert ChildRight(w.t, c);
    CutKeepsShape(w.t, c);
    Release(World(Cut(w.t, c), w.refs - {c}, w.held, w.flag - {c}, w.free - {c}), w.t.parent[c])
  }

  lemma RightCut<C>(t: Tree<C>, refs: map<C, int>, held: set<C>, c: C, x: C)
    requires Shape(t) && Counted(t, refs, held) && c in t.parent && t.items[c] == {} && refs[c] == Min(t, c)
    requires x in t.live && x != c && t.parent[c] in t.live && t.parent[c] != c
    ensures Right(Cut(t, c), refs[t.parent[c] := refs[t.parent[c]] - 1] - {c}, held, x)
  {
    assert Right(t, refs, held, c) && Right(t, refs, held, x);
    assert ChildRight(t, c);
    assert Pinning(Cut(t, c), held, x) == Pinning(t, held, x);
    assert x == t.parent[c] ==> |t.items[x] - {c}| == |t.items[x]| - 1;
  }

  lemma CutKeepsCounts<C>(t: Tree<C>, refs: map<C, int>, held: set<C>, c: C)
    requires Shape(t) && Counted(t, refs, held) && c in t.parent && t.items[c] == {} && refs[c] == Min(t, c)
    requires t.parent[c] in t.live && t.parent[c] != c
    ensures Counted(Cut(t, c), refs[t.parent[c] := refs[t.parent[c]] - 1] - {c}, held)
  {
    var t' := Cut(t, c);
    assert Right(t, refs, held, c);
    forall x | x in t'.live
      ensures Right(t', refs[t.parent[c] := refs[t.parent[c]] - 1] - {c}, held, x)
    {
      RightCut(t, refs, held, c, x);
    }
  }

  /** A parent that had only its minimum has its minimum still, pins nobody and is offered to
      the list; any other parent only loses the reference. */
  lemma ReclaimIs<C>(w: World<C>, c: C)
    requires Sound(w) && c in w.t.parent && w.t.items[c] == {}
    ensures w.t.parent[c] in w.t.live && w.t.parent[c] != c
    ensures var p, w' := w.t.parent[c], Reclaim(w, c);
            && w'.t == Cut(w.t, c) && w'.refs == w.refs[p := w.refs[p] - 1] - {c} && w'.held == w.held
            && (p in w'.flag && p !in w.flag ==> w.refs[p] == Min(w.t, p))
            && if p in w'.flag && p !in w.flag then w'.flag == w.flag - {c} + {p} && w'.free == w.free - {c} + {p}
               else w'.flag == w.flag - {c} && w'.free == w.free - {c}
  {
    var p := w.t.parent[c];
    assert ChildRight(w.t, c);
    assert Right(w.t, w.refs, w.held, p);
    CutKeepsShape(w.t, c);
    assert (w.refs - {c})[p := w.refs[p] - 1] == w.refs[p := w.refs[p] - 1] - {c};
    assert |w.t.items[p] - {c}| == |w.t.items[p]| - 1;
  }
}
