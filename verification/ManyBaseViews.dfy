/** The N-to-1 views as objects: their setup over the bases, what setup takes from bases that
    are views themselves, and the one base whose events reach them. */
module ManyBaseViews {
  import opened Sequences
  import opened OrderedMerge
  import opened SetViews
  import Events = ViewEvents
  import Shown = ViewChildren

  class Base {
    // what the main collection is ordered by, which is always the default: the name
    const sort := BY_NAME
    // the base is itself an N-to-1 view
    const isManyBase: bool
    // the base is a filter; path is then the directory it filters
    const isFiltered: bool
    const path: string
    var items: seq<Child>

    constructor (isManyBase: bool, isFiltered: bool, path: string)
      ensures items == []
      ensures this.isManyBase == isManyBase && this.isFiltered == isFiltered && this.path == path
    {
      items := [];
      this.isManyBase, this.isFiltered, this.path := isManyBase, isFiltered, path;
    }

    function Read(): Listing
      reads this
    {
      Listing(sort, items)
    }

    /** Remove by name. */
    method CannibalRemove(c: Child)
      modifies this
      ensures items == Without(old(items), {c.name})
    {
      var kept: seq<Child> := [];
      for i := 0 to |items|
        invariant items == old(items)
        invariant kept == Without(items[..i], {c.name})
      {
        WithoutSnoc(items[..i], items[i], {c.name});
        assert items[..i] + [items[i]] == items[..i + 1];
        if items[i].name != c.name {
          kept := kept + [items[i]];
        }
      }
      assert items[..|items|] == items;
      items := kept;
    }
  }

  /** The children whose names are not among ns, in their order. */
  function Without(s: seq<Child>, ns: set<string>): seq<Child> {
    if s == [] then [] else KeepIf(s[0].name !in ns, s[0]) + Without(s[1..], ns)
  }

  lemma {:induction false} WithoutSnoc(s: seq<Child>, c: Child, ns: set<string>)
    ensures Without(s + [c], ns) == if c.name in ns then Without(s, ns) else Without(s, ns) + [c]
    decreases |s|
  {
    if s == [] {
      assert s + [c] == [c] && [c][1..] == [];
      assert Without([c], ns) == KeepIf(c.name !in ns, c) + [];
    } else {
      assert (s + [c])[1..] == s[1..] + [c];
      WithoutSnoc(s[1..], c, ns);
      AppendAssoc(KeepIf(s[0].name !in ns, s[0]), Without(s[1..], ns), [c]);
    }
  }

  lemma {:induction false} WithoutTwice(s: seq<Child>, ns: set<string>, ms: set<string>)
    ensures Without(Without(s, ns), ms) == Without(s, ns + ms)
    decreases |s|
  {
    if s != [] {
      WithoutTwice(s[1..], ns, ms);
      if s[0].name !in ns {
        assert ([s[0]] + Without(s[1..], ns))[1..] == Without(s[1..], ns);
      } else {
        assert Without(s, ns) == [] + Without(s[1..], ns) == Without(s[1..], ns);
      }
    }
  }

  lemma {:induction false} WithoutNames(s: seq<Child>, ns: set<string>)
    ensures Names(Without(s, ns)) == Names(s) - ns
    ensures forall c :: c in Without(s, ns) <==> c in s && c.name !in ns
    decreases |s|
  {
    if s != [] {
      WithoutNames(s[1..], ns);
      assert s == [s[0]] + s[1..];
    }
  }

  lemma TakeNames(s: seq<Child>, i: nat)
    requires i < |s|
    ensures Names(s[..i + 1]) == Names(s[..i]) + {s[i].name}
  {
    assert s[..i + 1] == s[..i] + [s[i]];
  }

  lemma {:induction false} WithoutNothing(s: seq<Child>)
    ensures Without(s, {}) == s
    decreases |s|
  {
    if s != [] {
      WithoutNothing(s[1..]);
    }
  }

  function Listings(bases: seq<Base>): (bs: seq<Listing>)
    reads bases
    ensures |bs| == |bases| && forall i :: 0 <= i < |bs| ==> bs[i] == bases[i].Read()
  {
    if bases == [] then [] else [bases[0].Read()] + Listings(bases[1..])
  }

  function HeldNames(bases: seq<Base>): (ns: seq<set<string>>)
    reads bases
    ensures |ns| == |bases| && forall i :: 0 <= i < |ns| ==> ns[i] == Names(bases[i].items)
  {
    if bases == [] then [] else [Names(bases[0].items)] + HeldNames(bases[1..])
  }

  /** The holders setup counts are those the event rules count. */
  lemma {:induction false} CountIsOthers(bs: seq<Listing>, held: seq<set<string>>, n: string, k: nat)
    requires k <= |bs| == |held| && forall i :: 0 <= i < |bs| ==> held[i] == Names(bs[i].items)
    ensures Count(bs, n, k) == Events.Others(held[..k], n)
    decreases k
  {
    hide Names;
    if k > 0 {
      CountIsOthers(bs, held, n, k - 1);
      Events.OthersSnoc(held, k - 1, n);
      assert held[k - 1] == Names(bs[k - 1].items);
    } else {
      assert held[..0] == [];
    }
  }

  /** So what setup computes is what the event rules are measured against. */
  lemma SetupIsBatch(op: SetOp, bs: seq<Listing>, s: Events.Names, n: string)
    requires |bs| == |s.others| + 1 && s.first == Names(bs[0].items)
    requires forall i :: 0 <= i < |s.others| ==> s.others[i] == Names(bs[i + 1].items)
    ensures Holds(op, bs, n, |bs|) <==> Events.Batch(op, s, n)
  {
    var held := [s.first] + s.others;
    CountIsOthers(bs, held, n, |bs|);
    assert held[..|bs|] == held && held[1..] == s.others;
    assert Events.Others(held, n) == Events.Others(s.others, n) + if n in s.first then 1 else 0;
  }

  lemma NamesInserted(s: seq<Child>, c: Child)
    requires Ordered(s)
    ensures Ordered(PutByName(s, c)) && Names(PutByName(s, c)) == Names(s) + {c.name}
  {
    PutByNameOrdered(s, c);
    PutByNameHolds(s, c);
    assert c in PutByName(s, c);
    forall n | n in Names(s) && n != c.name
      ensures n in Names(PutByName(s, c))
    {
      var d :| d in s && d.name == n;
      assert d in PutByName(s, c);
    }
  }

  /** All main collections have the default comparator, so no base is ever sorted unlike another,
      and what the test guards is never reached: the name-keyed temporary and the union child by
      child. */
  lemma SortingNeverDiffers(bases: seq<Base>)
    ensures !DifferentSorting(Listings(bases))
  {
    assert forall b :: b in Listings(bases) ==> b.sort == BY_NAME;
  }

  /** The name promises the opposite of the answer. */
  method AllBaseContextsUseSameSorting(bases: seq<Base>) returns (differentSorting: bool)
    requires bases != []
    ensures differentSorting == DifferentSorting(Listings(bases))
  {
    differentSorting := false;
    var lastiter := bases[0];
    for bi := 1 to |bases|
      invariant !differentSorting && forall i :: 1 <= i < bi ==> bases[i].sort == bases[0].sort
    {
      if bases[bi].sort != lastiter.sort {
        differentSorting := true;
        break;
      }
    }
  }

  /** The folding loop with its two swapped buffers. */
  method FoldBases(op: SetOp, bases: seq<Base>, different: bool) returns (tin: seq<Child>)
    requires bases != []
    ensures tin == Fold(op, Listings(bases), different, |bases|)
  {
    ghost var bs := Listings(bases);
    tin := [];
    var tout: seq<Child> := [];
    var start := 0;
    if !op.SymmetricDifference? {
      tin, start := bases[0].items, 1;
    }
    for bi := start to |bases|
      invariant tin == Fold(op, bs, different, bi) && tout == []
    {
      var range := bases[bi].items;
      if different {
        range := SortedTemp(range);
      }
      tout := MergeRanges(op, tin, range);
      tin, tout := tout, tin;
      tout := [];
    }
  }

  /** A map keyed by name, filled child by child and walked in name order. */
  method SortedTemp(items: seq<Child>) returns (s: seq<Child>)
    ensures s == ByName(items)
  {
    s := [];
    for i := 0 to |items|
      invariant s == ByName(items[..i])
    {
      assert items[..i + 1][..i] == items[..i];
      s := PutByName(s, items[i]);
    }
    assert items[..|items|] == items;
  }

  class ManyBaseView {
    const op: SetOp
    const isCannibal: bool
    // the path of the delegate, which is the first base
    const delegatePath: string
    const bases: seq<Base>
    // the children by name
    var items: map<string, Child>
    var hasSetupBeenCalled: bool
    // the base whose signals are connected to this view
    var source: Base?

    constructor (op: SetOp, isCannibal: bool, delegatePath: string, bases: seq<Base>)
      ensures this.op == op && this.isCannibal == isCannibal && this.delegatePath == delegatePath && this.bases == bases
      ensures items == map[] && !hasSetupBeenCalled && source == null
    {
      this.op, this.isCannibal, this.delegatePath, this.bases := op, isCannibal, delegatePath, bases;
      items, hasSetupBeenCalled, source := map[], false, null;
    }

    method CascadedInsert(c: Child)
      modifies this`items
      ensures items == old(items)[c.name := c]
    {
      items := items[c.name := c];
    }

    /** The base's signals are connected unless some base's already are. */
    method SetupEventConnections(c: Base)
      modifies this`source
      ensures source == if old(source) == null then c else old(source)
    {
      if source != null {
        return;
      }
      source := c;
    }

    method BaseSetup()
      requires bases != []
      modifies this`hasSetupBeenCalled, this`source
      ensures hasSetupBeenCalled
      ensures source == if old(source) == null then bases[0] else old(source)
    {
      hasSetupBeenCalled := true;
      for bi := 0 to |bases|
        invariant hasSetupBeenCalled
        invariant source == if old(source) != null then old(source) else if bi == 0 then null else bases[0]
      {
        SetupEventConnections(bases[bi]);
      }
    }

    method InsertAll(s: seq<Child>)
      requires DistinctNames(s)
      modifies this`items
      ensures items.Keys == old(items).Keys + Names(s)
      ensures forall c :: c in s ==> c.name in items && items[c.name] == c
      ensures forall n :: n in old(items) && n !in Names(s) ==> items[n] == old(items)[n]
    {
      for i := 0 to |s|
        invariant items.Keys == old(items).Keys + Names(s[..i])
        invariant forall j :: 0 <= j < i ==> s[j].name in items && items[s[j].name] == s[j]
        invariant forall n :: n in old(items) && n !in Names(s[..i]) ==> items[n] == old(items)[n]
      {
        assert s[..i + 1] == s[..i] + [s[i]];
        CascadedInsert(s[i]);
      }
      assert s[..|s|] == s;
    }

    /** The view shows what its operation makes of the first k listings. */
    ghost predicate Shows(bs: seq<Listing>, k: nat)
      requires k <= |bs|
      reads this`items
    {
      && (forall n :: n in items ==> Holds(op, bs, n, k) && items[n].name == n)
      && (forall n :: Holds(op, bs, n, k) ==> n in items)
      && (forall n :: n in items ==> if op.SymmetricDifference? then FromLatest(bs, items[n], k)
                                     else FromEarliest(bs, items[n], k))
    }

    /** A view holding exactly the folded list shows the operation. */
    lemma FoldShows(tin: seq<Child>, bs: seq<Listing>, different: bool)
      requires Mergeable(bs) && tin == Fold(op, bs, different, |bs|)
      requires items.Keys == Names(tin) && forall c :: c in tin ==> items[c.name] == c
      ensures Shows(bs, |bs|)
    {
      forall n: string
        ensures n in Names(tin) <==> Holds(op, bs, n, |bs|)
      {
        FoldNames(op, bs, different, n, |bs|);
      }
      forall n | n in items
        ensures items[n].name == n
        ensures if op.SymmetricDifference? then FromLatest(bs, items[n], |bs|) else FromEarliest(bs, items[n], |bs|)
      {
        var c :| c in tin && c.name == n;
        assert items[c.name] == c;
        FoldSupply(op, bs, different, c, |bs|);
      }
    }

    /** Inserting the folded list into an empty view. */
    method InsertFold(tin: seq<Child>, ghost bs: seq<Listing>, ghost different: bool)
      requires items == map[] && Mergeable(bs) && tin == Fold(op, bs, different, |bs|)
      modifies this`items
      ensures Shows(bs, |bs|)
    {
      FoldNames(op, bs, different, "", |bs|);
      OrderedDistinct(tin);
      InsertAll(tin);
      FoldShows(tin, bs, different);
    }

    /** Setup of a difference or a symmetric difference. */
    method SetupFolded()
      requires op.Difference? || op.SymmetricDifference?
      requires Mergeable(Listings(bases)) && (!hasSetupBeenCalled ==> items == map[])
      modifies this
      ensures hasSetupBeenCalled
      ensures if old(hasSetupBeenCalled) then items == old(items) && source == old(source)
              else Shows(Listings(bases), |bases|) && source == if old(source) == null then bases[0] else old(source)
    {
      if hasSetupBeenCalled {
        return;
      }
      InsertFolded();
      BaseSetup();
    }

    method InsertFolded()
      requires Mergeable(Listings(bases)) && items == map[]
      modifies this`items
      ensures Shows(Listings(bases), |bases|)
    {
      var different := AllBaseContextsUseSameSorting(bases);
      var tin := FoldBases(op, bases, different);
      InsertFold(tin, Listings(bases), different);
    }

    // -------------------------------------------------------------------------------------
    // The intersection, which also takes its children out of bases that are views
    // -------------------------------------------------------------------------------------

    /** What every base holds. */
    ghost function Contents(): map<Base, seq<Child>>
      reads bases
    {
      map b | b in bases :: b.items
    }

    /** Since before, every base that is a view has lost the names ns, and no other base anything. */
    ghost predicate Robbed(before: map<Base, seq<Child>>, ns: set<string>)
      requires forall b :: b in bases ==> b in before
      reads bases
    {
      forall b :: b in bases ==> b.items == if b.isManyBase then Without(before[b], ns) else before[b]
    }

    method RemoveFromBases(c: Child)
      modifies bases
      ensures Robbed(old(Contents()), {c.name})
    {
      ghost var before := Contents();
      for bi := 0 to |bases|
        invariant forall b :: b in bases ==>
                    b.items == if b.isManyBase && b in bases[..bi] then Without(before[b], {c.name}) else before[b]
      {
        var b := bases[bi];
        assert bases[..bi + 1] == bases[..bi] + [b];
        if b.isManyBase {
          WithoutTwice(before[b], {c.name}, {c.name});
          assert {c.name} + {c.name} == {c.name};
          b.CannibalRemove(c);
        }
      }
      assert bases[..|bases|] == bases;
    }

    /** Robbing twice is robbing of both. */
    lemma RobbedMore(before: map<Base, seq<Child>>, ns: set<string>, mid: map<Base, seq<Child>>, ms: set<string>)
      requires forall b :: b in bases ==> b in before && b in mid
      requires forall b :: b in bases ==> mid[b] == if b.isManyBase then Without(before[b], ns) else before[b]
      requires Robbed(mid, ms)
      ensures Robbed(before, ns + ms)
    {
      forall b | b in bases
        ensures b.items == if b.isManyBase then Without(before[b], ns + ms) else before[b]
      {
        WithoutTwice(before[b], ns, ms);
      }
    }

    lemma RobbedOfNothing(before: map<Base, seq<Child>>)
      requires before == Contents()
      ensures Robbed(before, {})
    {
      forall b | b in bases
        ensures Without(b.items, {}) == b.items
      {
        WithoutNothing(b.items);
      }
    }

    /** The view holds exactly the first i children of s. */
    ghost predicate Inserted(s: seq<Child>, i: nat)
      requires i <= |s|
      reads this`items
    {
      items.Keys == Names(s[..i]) && forall j :: 0 <= j < i ==> s[j].name in items && items[s[j].name] == s[j]
    }

    method InsertNext(s: seq<Child>, i: nat)
      requires i < |s| && DistinctNames(s) && Inserted(s, i)
      modifies this`items
      ensures Inserted(s, i + 1)
    {
      TakeNames(s, i);
      CascadedInsert(s[i]);
    }

    /** Inserts the folded children; a cannibal takes each out of the bases as it goes. */
    method InsertAndRob(tin: seq<Child>)
      requires DistinctNames(tin) && items == map[]
      modifies this`items, bases
      ensures Inserted(tin, |tin|)
      ensures Robbed(old(Contents()), if isCannibal then Names(tin) else {})
    {
      ghost var before := Contents();
      RobbedOfNothing(before);
      assert Names(tin[..0]) == {};
      for i := 0 to |tin|
        invariant Inserted(tin, i)
        invariant Robbed(before, if isCannibal then Names(tin[..i]) else {})
      {
        InsertNext(tin, i);
        if isCannibal {
          RobNext(before, tin, i);
        }
      }
      assert tin[..|tin|] == tin;
    }

    method RobNext(ghost before: map<Base, seq<Child>>, s: seq<Child>, i: nat)
      requires forall b :: b in bases ==> b in before
      requires i < |s| && Robbed(before, Names(s[..i]))
      modifies bases
      ensures Robbed(before, Names(s[..i + 1]))
    {
      ghost var mid := Contents();
      RemoveFromBases(s[i]);
      RobbedMore(before, Names(s[..i]), mid, {s[i].name});
      TakeNames(s, i);
    }

    /** Takes every child of the view out of one base. */
    method RobBase(b: Base)
      requires forall n :: n in items ==> items[n].name == n
      modifies b
      ensures b.items == Without(old(b.items), items.Keys)
    {
      ghost var before := b.items;
      WithoutNothing(before);
      assert items.Keys - items.Keys == {};
      var todo := items.Keys;
      while todo != {}
        invariant todo <= items.Keys && b.items == Without(before, items.Keys - todo)
      {
        var n :| n in todo;
        WithoutTwice(before, items.Keys - todo, {n});
        assert items.Keys - (todo - {n}) == items.Keys - todo + {n};
        b.CannibalRemove(items[n]);
        todo := todo - {n};
      }
      assert items.Keys - {} == items.Keys;
    }

    /** Whether or not it is a cannibal, the view takes its children out of bases that are views. */
    method UpdateViewForCannibalizm()
      requires forall n :: n in items ==> items[n].name == n
      modifies bases
      ensures Robbed(old(Contents()), items.Keys)
    {
      ghost var before := Contents();
      for bi := 0 to |bases|
        invariant forall b :: b in bases ==>
                    b.items == if b.isManyBase && b in bases[..bi] then Without(before[b], items.Keys) else before[b]
      {
        var b := bases[bi];
        assert bases[..bi + 1] == bases[..bi] + [b];
        if b.isManyBase {
          WithoutTwice(before[b], items.Keys, items.Keys);
          assert items.Keys + items.Keys == items.Keys;
          RobBase(b);
        }
      }
      assert bases[..|bases|] == bases;
    }

    /** Setup of an intersection. */
    method SetupIntersection()
      requires op.Intersection? && Mergeable(Listings(bases)) && (!hasSetupBeenCalled ==> items == map[])
      modifies this, bases
      ensures hasSetupBeenCalled
      ensures if old(hasSetupBeenCalled) then
                items == old(items) && source == old(source) && Contents() == old(Contents())
              else Shows(old(Listings(bases)), |bases|) && Robbed(old(Contents()), items.Keys) &&
                   source == if old(source) == null then bases[0] else old(source)
      ensures !old(hasSetupBeenCalled) ==>
                (Shows(Listings(bases), |bases|) <==> RobsNobody()) &&
                (Events.Agrees(op, ByNames()) <==> RobsNobody())
    {
      if hasSetupBeenCalled {
        return;
      }
      ghost var bs, before := Listings(bases), Contents();
      IntersectAndRob();
      BaseSetup();
      SetupIsRightIff(bs, before);
    }

    /** Nothing is shown, or no base is a view. */
    predicate RobsNobody()
      reads this`items
    {
      items == map[] || forall i :: 0 <= i < |bases| ==> !bases[i].isManyBase
    }

    /** The view shows by name what setup would show now. */
    lemma AgreesIsHolds(n: string)
      requires bases != []
      ensures Events.AgreesOn(op, ByNames(), n) <==> (n in items <==> Holds(op, Listings(bases), n, |bases|))
    {
      hide Names, Holds, Events.Batch;
      SetupIsBatch(op, Listings(bases), ByNames(), n);
    }

    lemma ShowsAgrees()
      requires bases != []
      ensures Shows(Listings(bases), |bases|) ==> Events.Agrees(op, ByNames())
    {
      hide Events.AgreesOn, Holds, FromLatest, FromEarliest;
      forall n
        ensures Shows(Listings(bases), |bases|) ==> Events.AgreesOn(op, ByNames(), n)
      {
        AgreesIsHolds(n);
      }
    }

    lemma MissingIsWrong(i: nat, n: string)
      requires op.Intersection? && i < |bases| && n in items && n !in Names(bases[i].items)
      ensures !Events.AgreesOn(op, ByNames(), n)
    {
      hide Names;
      if i > 0 {
        assert n !in HeldNames(bases[1..])[i - 1];
      }
    }

    lemma NobodyRobbed(before: map<Base, seq<Child>>)
      requires forall b :: b in bases ==> b in before
      requires Robbed(before, items.Keys) && RobsNobody()
      ensures forall b :: b in bases ==> b.items == before[b]
    {
      forall b | b in bases
        ensures b.items == before[b]
      {
        if b.isManyBase {
          assert items.Keys == {};
          WithoutNothing(before[b]);
        }
      }
    }

    /** Setup shows the intersection of what the bases held, and takes it away from those that are
        views: measured against what they hold afterwards it is wrong as soon as it took a name. */
    lemma SetupIsRightIff(bs: seq<Listing>, before: map<Base, seq<Child>>)
      requires op.Intersection? && bases != [] && |bs| == |bases|
      requires forall b :: b in bases ==> b in before
      requires forall i :: 0 <= i < |bs| ==> bs[i] == Listing(bases[i].sort, before[bases[i]])
      requires Shows(bs, |bs|) && Robbed(before, items.Keys)
      ensures Shows(Listings(bases), |bases|) <==> RobsNobody()
      ensures Events.Agrees(op, ByNames()) <==> RobsNobody()
    {
      hide Shows, Holds, Names, Without, ByNames, Events.AgreesOn;
      ShowsAgrees();
      if RobsNobody() {
        NobodyRobbed(before);
        assert Listings(bases) == bs;
      } else {
        var i, n :| 0 <= i < |bases| && bases[i].isManyBase && n in items;
        WithoutNames(before[bases[i]], items.Keys);
        MissingIsWrong(i, n);
      }
    }

    method IntersectAndRob()
      requires op.Intersection? && Mergeable(Listings(bases)) && items == map[]
      modifies this`items, bases
      ensures Shows(old(Listings(bases)), |bases|) && Robbed(old(Contents()), items.Keys)
    {
      ghost var bs, before := Listings(bases), Contents();
      var different := AllBaseContextsUseSameSorting(bases);
      var tin := FoldBases(op, bases, different);
      FoldNames(op, bs, different, "", |bs|);
      OrderedDistinct(tin);
      InsertAndRob(tin);
      FoldShows(tin, bs, different);
      ghost var mid := Contents();
      UpdateViewForCannibalizm();
      RobbedMore(before, if isCannibal then items.Keys else {}, mid, items.Keys);
      assert (if isCannibal then items.Keys else {}) + items.Keys == items.Keys;
    }

    // -------------------------------------------------------------------------------------
    // Events
    // -------------------------------------------------------------------------------------

    /** The view and its bases by name. */
    ghost function ByNames(): Events.Names
      requires bases != []
      reads this, bases
    {
      Events.Names(items.Keys, Names(bases[0].items), HeldNames(bases[1..]))
    }

    /** The view and its bases with the children the view shows. */
    ghost function Children(): Shown.Shown
      requires bases != []
      reads this, bases
    {
      Shown.Shown(items, ByNames())
    }

    method ShouldInsertContext(c: Child) returns (r: bool)
      requires bases != []
      ensures r == Events.ShouldInsert(op, ByNames(), c.name)
    {
      // dont bind it twice for ourself
      if c.name in items {
        return false;
      }
      match op {
        case Union => r := true;
        case Difference => r := BoundInNoOther(c.name);
        case Intersection => r := BoundInEvery(c.name);
        case SymmetricDifference =>
          var count := BoundCount(c.name);
          r := count == 1;
      }
    }

    method BoundInNoOther(rdn: string) returns (r: bool)
      requires bases != []
      ensures r == (Events.Others(HeldNames(bases[1..]), rdn) == 0)
    {
      ghost var held := HeldNames(bases[1..]);
      for bi := 1 to |bases|
        invariant forall i :: 0 <= i < bi - 1 ==> rdn !in held[i]
      {
        if rdn in Names(bases[bi].items) {
          assert rdn in held[bi - 1];
          return false;
        }
      }
      return true;
    }

    method BoundInEvery(rdn: string) returns (r: bool)
      requires bases != []
      ensures r == (rdn in Names(bases[0].items) && Events.Others(HeldNames(bases[1..]), rdn) == |bases| - 1)
    {
      ghost var held := HeldNames(bases[1..]);
      for bi := 0 to |bases|
        invariant bi > 0 ==> rdn in Names(bases[0].items)
        invariant forall i :: 0 <= i < bi - 1 ==> rdn in held[i]
      {
        assert bi > 0 ==> held[bi - 1] == Names(bases[bi].items);
        if rdn !in Names(bases[bi].items) {
          return false;
        }
      }
      return true;
    }

    method BoundCount(rdn: string) returns (count: nat)
      requires bases != []
      ensures count == Events.Others(HeldNames(bases[1..]), rdn) + if rdn in Names(bases[0].items) then 1 else 0
    {
      count := 0;
      ghost var held := HeldNames(bases);
      for bi := 0 to |bases|
        invariant count == Events.Others(held[..bi], rdn)
      {
        Events.OthersSnoc(held, bi, rdn);
        if rdn in Names(bases[bi].items) {
          count := count + 1;
        }
      }
      assert held[..|bases|] == held && held[1..] == HeldNames(bases[1..]);
    }

    /** OnExists and OnCreated, which differ only in what they pass on. */
    method OnAppeared(c: Child)
      requires bases != []
      modifies this`items
      ensures ByNames() == Events.Insert(op, old(ByNames()), c.name)
      ensures items == if Events.ShouldInsert(op, old(ByNames()), c.name) then old(items)[c.name := c] else old(items)
    {
      var insert := ShouldInsertContext(c);
      if insert {
        CascadedInsert(c);
      }
    }

    method OnDeleted(olddn: string)
      modifies this`items
      ensures items == old(items) - {olddn}
    {
      if olddn in items {
        items := items - {olddn};
      }
    }

    /** A child appears in one of the bases; only the connected one tells the view. */
    method CreateIn(i: nat, c: Child)
      requires i < |bases| && Ordered(bases[i].items) && c.name !in Names(bases[i].items)
      requires forall j, k :: 0 <= j < k < |bases| ==> bases[j] != bases[k]
      requires source == bases[0]
      modifies this`items, bases[i]
      ensures bases[i].items == PutByName(old(bases[i].items), c) && Ordered(bases[i].items)
      ensures if i == 0 then Children() == Shown.Follow(op, old(Children()), Shown.Born(c))
              else items == old(items)
    {
      ghost var before := ByNames();
      var b := bases[i];
      b.items := PutByName(b.items, c);
      NamesInserted(old(b.items), c);
      if b == source {
        HeldUnchanged(old(HeldNames(bases[1..])));
        OnAppeared(c);
      }
    }

    /** A child goes from one of the bases. */
    method DeleteIn(i: nat, n: string)
      requires i < |bases| && n in Names(bases[i].items)
      requires forall j, k :: 0 <= j < k < |bases| ==> bases[j] != bases[k]
      requires source == bases[0]
      modifies this`items, bases[i]
      ensures bases[i].items == Without(old(bases[i].items), {n})
      ensures if i == 0 then Children() == Shown.Follow(op, old(Children()), Shown.Gone(n))
              else items == old(items)
    {
      var b := bases[i];
      b.items := Without(b.items, {n});
      WithoutNames(old(b.items), {n});
      if b == source {
        HeldUnchanged(old(HeldNames(bases[1..])));
        OnDeleted(n);
      }
    }

    lemma HeldUnchanged(before: seq<set<string>>)
      requires bases != [] && |before| == |bases| - 1
      requires forall i :: 0 <= i < |before| ==> before[i] == Names(bases[i + 1].items)
      ensures HeldNames(bases[1..]) == before
    {
    }

    // -------------------------------------------------------------------------------------
    // The union
    // -------------------------------------------------------------------------------------

    /** Inserts the children whose names are not discovered yet. */
    method InsertMissing(s: seq<Child>)
      requires forall n :: n in items ==> items[n].name == n
      modifies this`items
      ensures items.Keys == old(items).Keys + Names(s)
      ensures forall n :: n in old(items) ==> items[n] == old(items)[n]
      ensures forall n :: n in items && n !in old(items) ==> items[n] in s && items[n].name == n
    {
      for i := 0 to |s|
        invariant items.Keys == old(items).Keys + Names(s[..i])
        invariant forall n :: n in old(items) ==> n in items && items[n] == old(items)[n]
        invariant forall n :: n in items && n !in old(items) ==> items[n] in s && items[n].name == n
      {
        assert s[..i + 1] == s[..i] + [s[i]];
        if s[i].name !in items {
          CascadedInsert(s[i]);
        }
      }
      assert s[..|s|] == s;
    }

    /** One more base of a union whose bases are sorted differently. */
    lemma UnionExtends(bs: seq<Listing>, before: map<string, Child>, k: nat)
      requires op.Union? && k < |bs|
      requires items.Keys == before.Keys + Names(bs[k].items)
      requires forall n :: n in before ==> Count(bs, n, k) > 0 && before[n].name == n && FromEarliest(bs, before[n], k)
      requires forall n :: Count(bs, n, k) > 0 ==> n in before
      requires forall n :: n in before ==> items[n] == before[n]
      requires forall n :: n in items && n !in before ==> items[n] in bs[k].items && items[n].name == n
      ensures Shows(bs, k + 1)
    {
      forall n | n in items
        ensures FromEarliest(bs, items[n], k + 1)
      {
        CountedIfHeld(bs, n, k);
      }
    }

    predicate OverFilteredViewsOnly() {
      forall i :: 0 <= i < |bases| ==> bases[i].isFiltered && bases[i].path == delegatePath
    }

    /** The union of the raw pointers of the children of all bases. */
    method UnionOfPointers() returns (tin: set<Child>)
      requires bases != []
      ensures tin == Pointers(Listings(bases), |bases|)
    {
      tin := set c | c in bases[0].items;
      var tout: set<Child> := {};
      for bi := 1 to |bases|
        invariant tin == Pointers(Listings(bases), bi) && tout == {}
      {
        var z := set c | c in bases[bi].items;
        tout := tin + z;
        tin, tout := tout, tin;
        tout := {};
      }
    }

    /** The fast path of the union, over filters of one directory. */
    method InsertPointers(tin: set<Child>)
      requires items == map[]
      modifies this`items
      ensures items.Keys == NamesOf(tin)
      ensures forall n :: n in items ==> items[n] in tin && items[n].name == n
    {
      var todo := tin;
      while todo != {}
        invariant todo <= tin
        invariant items.Keys == NamesOf(tin - todo)
        invariant forall n :: n in items ==> items[n] in tin && items[n].name == n
      {
        var c :| c in todo;
        assert tin - (todo - {c}) == tin - todo + {c};
        todo := todo - {c};
        CascadedInsert(c);
      }
      assert tin - {} == tin;
    }

    /** The bases are in name order, and filters of one directory show its own children. */
    predicate UnionUsable(bs: seq<Listing>) {
      Mergeable(bs) && (OverFilteredViewsOnly() ==> OneDirectory(bs))
    }

    /** Setup of a union. */
    method SetupUnion()
      requires op.Union? && UnionUsable(Listings(bases)) && (!hasSetupBeenCalled ==> items == map[])
      modifies this
      ensures hasSetupBeenCalled
      ensures if old(hasSetupBeenCalled) then items == old(items) && source == old(source)
              else Shows(Listings(bases), |bases|) && source == if old(source) == null then bases[0] else old(source)
    {
      if hasSetupBeenCalled {
        return;
      }
      InsertUnion();
      BaseSetup();
    }

    method InsertUnion()
      requires op.Union? && items == map[] && UnionUsable(Listings(bases))
      modifies this`items
      ensures Shows(Listings(bases), |bases|)
    {
      hide DifferentSorting;
      var different := AllBaseContextsUseSameSorting(bases);
      if !different {
        InsertSame();
      } else {
        InsertDifferent();
      }
    }

    /** Bases sorted alike are merged, by pointer when they are filters of one directory. */
    method InsertSame()
      requires op.Union? && items == map[] && UnionUsable(Listings(bases))
      modifies this`items
      ensures Shows(Listings(bases), |bases|)
    {
      if OverFilteredViewsOnly() {
        var ptrs := UnionOfPointers();
        InsertPointers(ptrs);
        PointersShow(Listings(bases), ptrs);
      } else {
        InsertFolded();
      }
    }

    /** The path for bases that are sorted differently, which none are: child by child, each name
        once. It would show the same union. */
    method InsertDifferent()
      requires op.Union? && items == map[]
      modifies this`items
      ensures Shows(Listings(bases), |bases|)
    {
      ghost var bs := Listings(bases);
      for bi := 0 to |bases|
        invariant Shows(bs, bi)
      {
        ghost var before := items;
        InsertMissing(bases[bi].items);
        UnionExtends(bs, before, bi);
      }
    }

    lemma PointersShow(bs: seq<Listing>, ptrs: set<Child>)
      requires op.Union? && bs != [] && OneDirectory(bs) && ptrs == Pointers(bs, |bs|)
      requires items.Keys == NamesOf(ptrs)
      requires forall n :: n in items ==> items[n] in ptrs && items[n].name == n
      ensures Shows(bs, |bs|)
    {
      forall n: string
        ensures n in items <==> Holds(op, bs, n, |bs|)
      {
        PointerNames(bs, n, |bs|);
      }
      forall n | n in items
        ensures FromEarliest(bs, items[n], |bs|)
      {
        EarliestPointer(bs, items[n], |bs|);
      }
    }
  }

  function NamesOf(cs: set<Child>): set<string> {
    set c | c in cs :: c.name
  }

  /** The distinct objects among the children of the first k bases. */
  function Pointers(bs: seq<Listing>, k: nat): set<Child>
    requires k <= |bs|
  {
    if k == 0 then {}
    else
      var items := bs[k - 1].items;
      Pointers(bs, k - 1) + set c | c in items
  }

  /** Filters of one directory: equal names are the same object. */
  predicate OneDirectory(bs: seq<Listing>) {
    forall c, d :: c in Pointers(bs, |bs|) && d in Pointers(bs, |bs|) && c.name == d.name ==> c == d
  }

  /** The pointer union has the same names as the merge over names. */
  lemma {:induction false} PointerNames(bs: seq<Listing>, n: string, k: nat)
    requires k <= |bs|
    ensures n in NamesOf(Pointers(bs, k)) <==> Holds(Union, bs, n, k)
    decreases k
  {
    if k > 0 {
      PointerNames(bs, n, k - 1);
      if n in Names(bs[k - 1].items) {
        var c :| c in bs[k - 1].items && c.name == n;
        assert c in Pointers(bs, k);
      }
    }
  }

  lemma {:induction false} EarliestPointer(bs: seq<Listing>, c: Child, k: nat)
    requires k <= |bs| && OneDirectory(bs) && c in Pointers(bs, k)
    ensures FromEarliest(bs, c, k)
    decreases k
  {
    PointersGrow(bs, k);
    if c in Pointers(bs, k - 1) {
      EarliestPointer(bs, c, k - 1);
      var i :| 0 <= i < k - 1 && c in bs[i].items && forall j :: 0 <= j < i ==> c.name !in Names(bs[j].items);
    } else {
      forall j, d | 0 <= j < k - 1 && d in bs[j].items
        ensures d.name != c.name
      {
        PointersHave(bs, d, k - 1, j);
        PointersGrow(bs, k - 1);
      }
    }
  }

  lemma {:induction false} PointersGrow(bs: seq<Listing>, k: nat)
    requires k <= |bs|
    ensures Pointers(bs, k) <= Pointers(bs, |bs|)
    decreases |bs| - k
  {
    if k < |bs| {
      PointersGrow(bs, k + 1);
    }
  }

  lemma {:induction false} PointersHave(bs: seq<Listing>, c: Child, k: nat, i: nat)
    requires i < k <= |bs| && c in bs[i].items
    ensures c in Pointers(bs, k)
    decreases k
  {
    if i < k - 1 {
      PointersHave(bs, c, k - 1, i);
    }
  }

  // ---------------------------------------------------------------------------------------
  // What the intersection leaves of its bases
  // ---------------------------------------------------------------------------------------

  lemma {:induction false} HeldByAll(bs: seq<Listing>, n: string, k: nat)
    requires k <= |bs|
    ensures Count(bs, n, k) == k <==> forall i :: 0 <= i < k ==> n in Names(bs[i].items)
    decreases k
  {
    if k > 0 {
      HeldByAll(bs, n, k - 1);
    }
  }

  predicate InEach(lists: seq<seq<Child>>, n: string) {
    forall i :: 0 <= i < |lists| ==> n in Names(lists[i])
  }

  /** When every base is a view, setup partitions each: what it had is what it keeps and, apart
      from that, what the intersection shows; and no name is left that all bases hold. */
  lemma IntersectionPartitions(bs: seq<Listing>, shown: set<string>, kept: seq<seq<Child>>)
    requires bs != [] && |kept| == |bs|
    requires forall n :: n in shown ==> Holds(Intersection, bs, n, |bs|)
    requires forall n :: Holds(Intersection, bs, n, |bs|) ==> n in shown
    requires forall i :: 0 <= i < |bs| ==> kept[i] == Without(bs[i].items, shown)
    ensures forall i :: 0 <= i < |bs| ==>
              Names(bs[i].items) == Names(kept[i]) + shown && Names(kept[i]) !! shown
    ensures forall n :: !InEach(kept, n)
  {
    forall i | 0 <= i < |bs|
      ensures Names(bs[i].items) == Names(kept[i]) + shown && Names(kept[i]) !! shown
    {
      WithoutNames(bs[i].items, shown);
      forall n | n in shown
        ensures n in Names(bs[i].items)
      {
        HeldByAll(bs, n, |bs|);
      }
    }
    forall n: string
      ensures !InEach(kept, n)
    {
      HeldByAll(bs, n, |bs|);
      if n in shown {
        assert n !in Names(kept[0]);
      } else {
        var i :| 0 <= i < |bs| && n !in Names(bs[i].items);
        assert n !in Names(kept[i]);
      }
    }
  }
}
