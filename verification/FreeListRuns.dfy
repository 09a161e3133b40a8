/** Runs of acquire, release, discovery and clean-up. */
module FreeListRuns {
  import opened FreeList
  import opened FreeListPass
  import opened FreeListClients
  import opened PinnedPass
  import opened AutomaticCleaning
  import opened SafeReleases

  /** A release comes with the orders of the passes it may start. A reader sets the number of
      children of a context anew, to zero or not, before and after reading it. */
  datatype Op<C> = Acquired(c: C) | Released(c: C, orders: seq<seq<(C, bool)>>) | Discovered(p: C, k: C, kind: Kind)
                 | Cleaned(force: bool, order: seq<(C, bool)>) | Recounted(c: C, zero: bool)

  /** What clients may do: only handles that are held are given back, with automatic clean-up only
      where that is secure, or safe and nothing throws, and children are discovered through a handle
      on their parent. */
  ghost predicate Allowed<C>(h: Held<C>, cfg: Settings, op: Op<C>)
    requires Accounted(h)
  {
    match op
    case Acquired(c) => c in h.w.t.live
    case Released(c, orders) =>
      && c in h.handles && h.handles[c] > 0 && Trusted(h.w, c, cfg, orders)
      && Releasing(h.w, c, {}, cfg, orders) != Impossible
    case Discovered(p, k, _) => p in h.handles && h.handles[p] > 0 && k !in h.w.t.live
    case Cleaned(_, order) => Enumerates(order, h.w.free)
    case Recounted(c, _) => c in h.w.t.live
  }

  function Counting<C(==)>(w: World<C>, c: C, zero: bool): World<C> {
    w.(t := w.t.(counting := if zero then w.t.counting - {c} else w.t.counting + {c}))
  }

  ghost function Step<C>(h: Held<C>, cfg: Settings, op: Op<C>): Held<C>
    requires Accounted(h) && Allowed(h, cfg, op)
  {
    match op
    case Acquired(c) => Held(Acquire(h.w, c), h.handles[c := h.handles[c] + 1])
    case Released(c, orders) =>
      var o := Releasing(h.w, c, {}, cfg, orders);
      TrustedIsRight(h, c, cfg, orders);
      Handed(h, c, o.w)
    case Discovered(p, k, kind) => Held(Discover(h.w, p, k, kind), h.handles[k := 0])
    case Cleaned(force, order) =>
      var w' := CleanUp(h.w, cfg, force, order).0;
      Held(w', map c | c in w'.t.live :: h.handles[c])
    case Recounted(c, zero) => Held(Counting(h.w, c, zero), h.handles)
  }

  lemma AcquireStep<C>(h: Held<C>, c: C)
    requires Accounted(h) && c in h.w.t.live
    ensures Accounted(Held(Acquire(h.w, c), h.handles[c := h.handles[c] + 1]))
  {
    var h' := Held(Acquire(h.w, c), h.handles[c := h.handles[c] + 1]);
    AcquireKeeps(h.w, c);
    forall x | x in h.w.t.live
      ensures Agrees(h', x)
    {
      assert Agrees(h, x);
      AcquireClients(h.w, c, x);
      AcquireForgets(h.w, c, x);
    }
  }

  lemma RecountStep<C>(h: Held<C>, c: C, zero: bool)
    requires Accounted(h) && c in h.w.t.live
    ensures Accounted(Held(Counting(h.w, c, zero), h.handles))
  {
    var h' := Held(Counting(h.w, c, zero), h.handles);
    assert Shape(h'.w.t) by {
      forall x | x in h.w.t.parent
        ensures ChildRight(h'.w.t, x)
      {
        assert ChildRight(h.w.t, x);
      }
    }
    forall x | x in h.w.t.live
      ensures Right(h'.w.t, h'.w.refs, h'.w.held, x) && Agrees(h', x)
    {
      assert Right(h.w.t, h.w.refs, h.w.held, x) && Agrees(h, x);
      assert Pinning(h'.w.t, h'.w.held, x) == Pinning(h.w.t, h.w.held, x);
    }
  }

  lemma DiscoverStep<C>(h: Held<C>, p: C, k: C, kind: Kind)
    requires Accounted(h) && p in h.w.t.live && h.handles[p] > 0 && k !in h.w.t.live
    ensures Accounted(Held(Discover(h.w, p, k, kind), h.handles[k := 0]))
  {
    hide Right, Pins, Min, Clients, Forgotten;
    var h' := Held(Discover(h.w, p, k, kind), h.handles[k := 0]);
    Spare(h, p);
    DiscoverKeeps(h.w, p, k, kind);
    forall x | x in h'.w.t.live
      ensures Agrees(h', x)
    {
      assert x in h.w.t.live ==> Agrees(h, x);
      DiscoverClients(h.w, p, k, kind, x);
      DiscoverForgets(h.w, p, k, kind, x);
    }
  }

  lemma CleanStep<C>(h: Held<C>, cfg: Settings, force: bool, order: seq<(C, bool)>)
    requires Accounted(h) && Enumerates(order, h.w.free)
    ensures Accounted(Step(h, cfg, Cleaned(force, order)))
  {
    var h' := Step(h, cfg, Cleaned(force, order));
    forall x | x in h'.w.t.live
      ensures Agrees(h', x)
    {
      assert Agrees(h, x);
      CleanUpClients(h.w, cfg, force, order, x);
      CleanUpForgets(h.w, cfg, force, order, x);
    }
  }

  lemma StepKeeps<C>(h: Held<C>, cfg: Settings, op: Op<C>)
    requires Accounted(h) && Allowed(h, cfg, op)
    ensures Accounted(Step(h, cfg, op))
  {
    match op
    case Acquired(c) => AcquireStep(h, c);
    case Released(c, orders) => TrustedIsRight(h, c, cfg, orders);
    case Discovered(p, k, kind) => DiscoverStep(h, p, k, kind);
    case Cleaned(force, order) => CleanStep(h, cfg, force, order);
    case Recounted(c, zero) => RecountStep(h, c, zero);
  }

  /** A root alone, listed by its constructor and owned by somebody. */
  function Start<C(==)>(root: C, kind: Kind): Held<C> {
    Held(World(Tree({root}, map[], map[root := {}], map[root := 0], {},
                    With({}, root, kind.supports), With({}, root, kind.overmounted), With({}, root, kind.metadata)),
               map[root := 1], {}, {root}, {root}),
         map[root := 0])
  }

  ghost predicate Lawful<C>(h: Held<C>, cfg: Settings, ops: seq<Op<C>>)
    decreases |ops|
  {
    Accounted(h) && (ops == [] || (Allowed(h, cfg, ops[0]) && Lawful(Step(h, cfg, ops[0]), cfg, ops[1..])))
  }

  ghost function Run<C>(h: Held<C>, cfg: Settings, ops: seq<Op<C>>): Held<C>
    requires Lawful(h, cfg, ops)
    decreases |ops|
  {
    if ops == [] then h else Run(Step(h, cfg, ops[0]), cfg, ops[1..])
  }

  /** A run is lawful as soon as each of its operations is allowed when it comes. */
  ghost predicate AllAllowed<C>(h: Held<C>, cfg: Settings, ops: seq<Op<C>>)
    requires Accounted(h)
    decreases |ops|
  {
    ops == [] || (Allowed(h, cfg, ops[0]) && (StepKeeps(h, cfg, ops[0]); AllAllowed(Step(h, cfg, ops[0]), cfg, ops[1..])))
  }

  /** Over every run from the start the tree stays closed under parent, flags and list agree,
      and every reference count is accounted for. */
  lemma {:induction false} EveryRunAccounts<C>(h: Held<C>, cfg: Settings, ops: seq<Op<C>>)
    requires Accounted(h) && AllAllowed(h, cfg, ops)
    ensures Lawful(h, cfg, ops) && Accounted(Run(h, cfg, ops))
    decreases |ops|
  {
    if ops != [] {
      StepKeeps(h, cfg, ops[0]);
      EveryRunAccounts(Step(h, cfg, ops[0]), cfg, ops[1..]);
    }
  }

  lemma StartAccounts<C>(root: C, kind: Kind)
    ensures Accounted(Start(root, kind))
  {
    var h := Start(root, kind);
    assert Right(h.w.t, h.w.refs, h.w.held, root);
    assert Agrees(h, root);
  }

  /** No step takes away a context that a client holds, or any ancestor of it. */
  lemma UsedIsKept<C>(h: Held<C>, cfg: Settings, op: Op<C>, c: C, n: nat)
    requires Accounted(h) && Allowed(h, cfg, op) && c in h.handles && h.handles[c] > 0
    ensures Ancestor(h.w.t, c, n) in Step(h, cfg, op).w.t.live
  {
    match op
    case Cleaned(force, order) =>
      Spare(h, c);
      AncestorsAreBusy(h.w, c, n);
      CleanUpAccounts(h.w, cfg, force, order);
    case Released(x, orders) =>
      TrustedIsRight(h, x, cfg, orders);
      AncestorStays(h.w.t, Releasing(h.w, x, {}, cfg, orders).w.t, c, n);
    case _ =>
  }
}
